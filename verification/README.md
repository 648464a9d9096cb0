# quantum-os in Dafny

A model of five parts of quantum-os and proofs about it:

1. the algebra of twists and the search for closures (`Twists`, `Pauli`, `Histories`, `Coupling`, `Words`,
   `Closures`, `Enumerator`, `Solver`, `Solving`, `Answers`, `LeastAction`, `EventCap`, `CapBound`,
   `TieBreaks`, `Winners`);
2. governance: web of trust, accountability, liquid delegation, renaming of members, ranked-choice polls (`Groups`,
   `Trust`, `Relaxation`, `TrustLaws`, `Accountability`, `AccountLaws`, `Delegations`, `Governance`, `Renaming`,
   `RenamingLaws`, `Rekeying`, `FlowLaws`, `Ballots`, `RankedChoice`, `PollLaws`);
3. the pooled exchange contract and the two-phase trade between two of them (`Exchange`, `VerbLaws`, `ExchangeLaws`,
   `Estates`, `TwoPhase`, `TradeLaws`, `Expiry`, `SharedIds`);
4. the signaling server's rooms, seats and indexes, with the client's roster (`Seats`, `Signaling`, `SignalingSafety`,
   `SignalingJoin`, `SignalingRuns`, `EventLaws`, `SignalingQueues`, `SignalingDelivery`, `SignalingDiscipline`,
   `Serving`);
5. the encoder of deploy data (`Varints`, `Utf8`, `Deploys`).

Each part has a mathematical form (functions on values) and, where the source works by changing things step by step,
methods with the same loops and updates, proved to compute that form. The laws are then lemmas about the form, for all
inputs, runs or reachable states. `Answers`, `TrustLaws`, `AccountLaws`, `FlowLaws`, `PollLaws`, `VerbLaws`, `TradeLaws`
and `EventLaws` say what each operation does on the raw data: counts of twists, tables of ratings and censures, ballots as
cast, balances and reserves, seats and frames. `dafny verify dfyconfig.toml` checks everything; `Options` and
`Permutations` hold stock definitions.

## Reading guide

- **Twists.** A history is a word over eight twists, its fold a product of 2x2 matrices over the Gaussian integers,
  which is exact. `Search` lists the words a search yields; `EnumerateClosures` is the odometer loop that hands them
  out, with the limit tested after each closure, so even a limit of zero lets one through.
- **Trust.** `Level` is the best value obtainable in at most five ratings from an admin; `PositiveTrust` is the
  relaxation loop and reaches it in at most six rounds for every order of members. `Settle` is the accountability
  phase. Ratings and weights are reals, so the results hold for fractional ratings too.
- **Ranked choice.** `Irv` is the count by recursion on the standing options.
- **Exchange.** A state is the three cells `poolsCh`, `balsCh` and `txCh`; a verb is one atomic step on them. A
  two-phase trade runs on two such states, with the client, its crashes and its recovery, and everybody else's verbs,
  interleaved in any way. Records are kept under the id alone, so `LegOf`, what `stateOf` shows, may be somebody else's
  leg; `OwnLeg` is the trader's.
- **Signaling.** Sockets break, close and are replaced, timers run out, and messages arrive in any order. `Inv` says
  that `rooms`, `peerIndex` and `wsIndex` agree, that a live seat's socket maps back to it, that a seat without a socket
  has an armed timer and a queue within its caps, and that the frames sent on every open seated socket give its client a
  roster of the room minus itself. `StepFits` marks the misplaced joins and leaves that break it.
- **Deploys.** `Read` is a reader of the Protocol Buffers wire format (Encoding guide, sections "Base 128 Varints" and
  "Message Structure"), against which the writer is judged.

## Where the code and its documentation differ

The model follows the code.

- packages/browser/src/qucalc-enum.ts:33-36 says the last tie-break of the solver reads `TWIST_ORDER`; lines 401-407
  compare rendered histories by character code, a different order (`TieBreaks.TieBreakIsNotTwistOrder`). On a position's
  shortest completions the two orders agree within each phase exactly when the residual lies on one axis, asks only for
  horizontals and `\`, or is two twists none of which is `+` or `-` (`TieBreaks.ComparatorAgreesIff`,
  `TieBreaks.OrdersAgreeIff`). The winner is the first in `TWIST_ORDER` exactly then, or when one turn is wanted twice and
  another once and the best phase goes to the word with the single one in the middle (`Winners.WinnerIsFirstIff`).
- packages/browser/src/qucalc-enum.ts:42-43 says the cap of 5000 ranked events never matters, since the winner is always
  shallow. The answer is the least free action exactly when that is among the first 5000 closures of least depth
  (`LeastAction.SolverTakesLeastActionIff`). It always is with the default minimum length
  (`LeastAction.SolverAtDefaultLength`), and with any other unless the least depth is 7 and the residual's size 1 or 3
  (`CapBound.CapIsHarmless`). From `+` with a minimum length of 8 it is not: the closures of depth 7 that stay within a
  peak of 1 all begin with `-` and come behind 5040 others, and the answer has a peak of 2 or more
  (`EventCap.CapHidesLeastAction`).
- packages/browser/src/gov.ts:257 calls its bound on rounds ample; the relaxation never needs more than six rounds
  (`Relaxation.PositiveTrust`).
- packages/browser/src/gov.ts:136-139 says re-keying a member keeps vote resolution correct. It moves every reference in
  the record, but ballots are kept in the poll under the id they were cast with (packages/browser/src/app.ts:9671-9679).
  A member who has voted and comes back under a fresh id is no direct voter any more: neither their vote nor those
  delegated to them land there (`Rekeying.RekeyLosesVote`, `Rekeying.LoneVoteLost`). Resolution follows the
  member exactly when the poll has a ballot for both ids or for neither (`Rekeying.WeightsFollowIff`).
- packages/browser/src/exchange-2pc.ts:40-43 calls `inconsistent` unreachable for a client that follows the protocol in
  order. It is not, in four ways.
  - A client that makes its calls in order, crashes after the local commit and then cannot reach the remote exchange
    reads `inconsistent`, because an unreachable exchange reads as `unknown`. The legs agree and the remote one is still
    prepared, but the outcome says settled and nothing more is done (`TwoPhase.InOrderCrashReadsInconsistent`). An
    unreachable read is `inconsistent` exactly when the local leg has committed (`TwoPhase.UnreachableReadIff`).
  - The exchanges record an id for whoever comes first (packages/browser/src/rholang-exchange.js:222 and 274), the id is
    public, and the recovery table does not look at the holder. When somebody else has recorded it on the remote
    exchange, a client in order is refused the credit and backs out, and reads `inconsistent` once the other commits
    (`SharedIds.BackedOutReadsInconsistent`). After a crash it reads both legs prepared, commits its sale and is refused
    the credit; it then reads `inconsistent` or, if the other commits, settled (`SharedIds.CrashedIsMisled`,
    `SharedIds.SharedIdHappens`). A recovery of a pending sale loses it in this way exactly when `stateOf` shows the id
    on the remote exchange in another's name and not aborted (`SharedIds.MisledLosesIff`).
  - An abort of the remote leg by a third party after expiry leads to a split, at once or at one of the client's next two
    calls, exactly when the local leg has committed, both legs are prepared and about to be committed, or a recovery
    still has the local commit to make (`Expiry.RemoteExpirySplitsIff`). An abort of the local leg does so, within three
    calls, exactly when the remote leg has committed, both are about to be, a recovery still has the remote commit to
    make, the credit is asked for next and granted, or somebody else's record under the id has committed on the remote
    exchange (`Expiry.LocalExpirySplitsIff`). Otherwise the trader's legs never split, whatever the others and the client
    do (`Expiry.RemoteExpiryHarmless`, `Expiry.LocalExpiryHarmless`); the second of these lemmas leaves out the moment
    before the credit is asked for, and after it a read says `inconsistent` exactly of somebody else's committed record.
    Aborting the local leg of a trade prepared on both sides is enough to split it (`Expiry.LocalExpiryInBothReady`,
    `Expiry.LocalExpiryHappens`). The source has no driver for the five calls; the modelled client goes on with the next
    call when a commit was refused, as a caller that does not look at the reply would.
  - A recovery that cannot reach the remote exchange splits the legs exactly when the remote leg has committed and the
    local one has not (`Expiry.UnreachableRecoverySplitsIff`), as after a recovery that committed the remote leg first
    (`Expiry.MixedRecoverySplits`).

  That the trader's legs never split therefore assumes three things of a run: no abort by others after expiry, no recovery
  misled by another's record under the id, and either truthful status reads or recoveries that commit the local leg first.
- packages/signaling/src/room.ts:58-60 says that with queueing a blip loses nothing. Over whole runs a seat has been sent,
  or is kept, all that was addressed to it exactly when no step lost any of it; what can be lost is the oldest of a queue
  over its caps, a frame addressed while the socket is broken but not yet closed, and a queue replayed to a socket that is
  no longer open (`SignalingDelivery.NothingLostIff`, `SignalingDelivery.DeliveryInOrder`).
- packages/browser/src/rholang-exchange.js:343-346 says an abort reverses the swap exactly. The pool is an argument of
  the abort (line 357), and naming another pool leaves the sale standing and reverses it in that other pool
  (`TwoPhase.AbortElsewhere`, one verb away from an ordinary prepared sale by `TwoPhase.AbortElsewhereIsReached`).
  What was moved is taken back exactly when the abort names the recorded pool or nothing was moved
  (`TwoPhase.AbortTakesBackIff`).
- packages/signaling/src/server.ts:276-284 lets a `leave` name any room, and line 300 may drop the very room that line 291
  fetched. Both break the indexes; `LeaveFits` and `JoinFits` are exactly the cases in which they stay intact.

## Model

| member | source | states |
|---|---|---|
| Pauli.FoldIsProduct | crates/zfa-core/src/pauli.rs:98-105 | Folding twist by twist is the product of the twists' Pauli matrices |
| Pauli.Involution | crates/zfa-core/src/pauli.rs:81-95 | Each twist's matrix is its own inverse |
| Pauli.OppositesNegate | crates/zfa-core/src/pauli.rs:81-95 | Opposite twists multiply to -I |
| Pauli.CyclicProduct | crates/zfa-core/src/pauli.rs:81-95 | X, Y and Z multiply in this order to iI |
| Pauli.ComputeScalar | packages/browser/src/zfa.ts:154-206 | The browser's multiplication loop finds the scalar a word folds to, or that there is none |
| Pauli.FoldNormalForm | crates/zfa-core/src/pauli.rs:66-105 | Every fold is, up to sign, one X, one Y and one Z for each axis met an odd number of times |
| Pauli.ScalarIffSharedParity | crates/zfa-core/src/coupling.rs:86-115 | A word closes exactly when its three axis parities agree, with an imaginary scalar exactly when all are odd |
| Histories.BalancedFoldsToSign | crates/zfa-core/src/history.rs:33-65 | A vanishing action vector forces the fold to +I or -I, at every length |
| Histories.BalancedClosesInEveryOrder | crates/zfa-core/src/history.rs:51-65 | Every reordering of a balanced word closes too |
| Histories.ScalarIffCountsShareParity | crates/zfa-core/src/coupling.rs:86-115 | The scalar law in terms of counts of twists |
| Histories.AggregateBalanceDoesNotClose | crates/zfa-core/src/history.rs:83-105 | The aggregate balance is too weak: a two-twist word has it and does not close |
| Coupling.FoldsToScalarIsPauliClosed | crates/zfa-core/src/coupling.rs:112-115 | The parity test decides matrix closure |
| Coupling.AxisParities | crates/zfa-core/src/coupling.rs:86-109 | The counting loop finds the three parities the normal form speaks of |
| Coupling.ClassifyCoupling | packages/browser/src/zfa.ts:254-279 | The TypeScript fallback gives the crate's verdict and the crate's indices of open parts |
| Coupling.VerdictByCounting | crates/zfa-core/src/coupling.rs:127-151 | Counting twists per part and in all decides the verdict, and which parts are open |
| Coupling.VerdictIsOrderIndependent | crates/zfa-core/src/coupling.rs:127-141 | No permutation of the parts changes the verdict |
| Coupling.CoupledIffSomePartOpen | crates/zfa-core/src/coupling.rs:127-151 | For a closed join, coupled means exactly that some part is open |
| Coupling.NeverExactlyOneOpenPart | crates/zfa-core/src/coupling.rs:144-151 | A closed join never has exactly one open part |
| Words.RankIsLexicographic | packages/browser/src/qucalc-enum.ts:33-36 | Odometer order is lexicographic in TWIST_ORDER |
| Words.Advance | packages/browser/src/qucalc-enum.ts:210-222 | One odometer step goes to the next word, or reports the last one, and keeps digits, digit counts and bytes in step |
| Closures.SearchMembers | packages/browser/src/qucalc-enum.ts:155-224 | With no limit the yielded words are exactly those of admissible depth passing the action, fold and length tests and, in absorbing mode, extending no earlier closure |
| Closures.SearchOrdered | packages/browser/src/qucalc-enum.ts:155-224 | They come strictly in order of depth, then TWIST_ORDER, hence each once |
| Closures.SkippedDepthIsEmpty | packages/browser/src/qucalc-enum.ts:77-83 | A depth skipped as infeasible or too short holds no closure |
| Closures.GateNeverRejects | packages/browser/src/qucalc-enum.ts:186-200 | The Pauli gate never rejects a candidate that balances the position |
| Closures.AbsorbedIffYieldedPrefix | packages/browser/src/qucalc-enum.ts:191-203 | Recording only the words that were yielded suppresses exactly the words with a closing prefix |
| Closures.EventsFormAntichain | packages/browser/src/qucalc-enum.ts:191-203 | No event extends another |
| Closures.EveryClosureExtendsOneEvent | packages/browser/src/qucalc-enum.ts:191-203 | Every closure of the possibilities mode extends exactly one event |
| Enumerator.ActionOf | packages/browser/src/qucalc-enum.ts:60-73 | The counters end at the signed action vector |
| Enumerator.Examine | packages/browser/src/qucalc-enum.ts:186-200 | Testing the counts, then the recorded prefixes, then the fold decides whether the word is yielded, and finds its scalar |
| Enumerator.ScanDepth | packages/browser/src/qucalc-enum.ts:174-222 | The in-place loop over one depth hands out its words in order, stopping at the limit |
| Enumerator.EnumerateClosures | packages/browser/src/qucalc-enum.ts:155-224 | The enumerator returns the words of the search with their folds, cut at the limit, or refuses a malformed position |
| Answers.SearchIsWanted | packages/browser/src/qucalc-enum.ts:155-224 | A search lists exactly the words up to its depth that leave, long enough, every twist cancelled and, in events mode, no shorter beginning so |
| Answers.HandedOutIsListing | packages/browser/src/qucalc-enum.ts:155-224 | Under any options what is handed out is that list, with each word's own product, shorter first and then in TWIST_ORDER, to a depth of 6, a total length of 4 and a limit of 10000 unless told otherwise, and never with a depth or limit below 1 |
| Twists.ParseRefuses | packages/browser/src/qucalc-enum.ts:54-59 | A position is refused exactly when it is empty or for its first character that is no twist |
| Answers.TwistOrder | packages/browser/src/qucalc-enum.ts:36 | The odometer's digits stand for `^v<>/\+-` in this order |
| Solver.RankedInOrder | packages/browser/src/qucalc-enum.ts:401-407 | The ranking is a permutation of the events in cascade order |
| Solver.ComputeMaxExcursion | packages/browser/src/qucalc-enum.ts:86-97 | The running maximum is the largest free action of a prefix |
| Solving.SolvePosition | packages/browser/src/qucalc-enum.ts:422-479 | The two-stage search and its conclusion compute the model's answer |
| Answers.SolverAnswer | packages/browser/src/qucalc-enum.ts:422-479 | For every position: its own answer if closed as it stands; otherwise the first in rank of the first 5000 events of the natural depth, or of the full depth when that has none, with its peak and the ranked list; or, with no event in the full depth, the twists missing on each axis, the reason, and a completion of just those twists |
| Answers.ClosedAnswer | packages/browser/src/qucalc-enum.ts:435-444 | A position closed as it stands is answered by itself, at depth 0, with the sign its twists multiply to and the largest imbalance on the way, and nothing considered |
| Answers.DepthAsked | packages/browser/src/qucalc-enum.ts:428 | The full depth is what is asked for, between 1 and 7, and 7 unless told |
| Answers.PeakIsLargest | packages/browser/src/qucalc-enum.ts:86-97 | The peak is the imbalance of some beginning and of none exceeded |
| Answers.PrecedesIsSooner | packages/browser/src/qucalc-enum.ts:401-407 | The ranking compares peaks, then lengths, then the products 1 and -1, then the rendered texts |
| LeastAction.SolverTakesLeastActionIff | packages/browser/src/qucalc-enum.ts:409-479 | For every position with a closure in reach, the answer is the least free action (least peak among closures of any length, then least depth, then phase, then history) exactly when that is among the first 5000 closures of least depth |
| LeastAction.SolverTakesLeastAction | packages/browser/src/qucalc-enum.ts:409-479 | So it is whenever no more than 5000 closures have the least depth; its peak is then the position's own, or 1 |
| LeastAction.SolverAtDefaultLength | packages/browser/src/qucalc-enum.ts:422-479 | With the default minimum length or less, every position is closed as it stands, out of reach of the depth searched, or answered with the least free action |
| LeastAction.ClosuresReachLeastDepth | packages/browser/src/qucalc-enum.ts:77-83 | A closure supplies the residual exactly, and none is shorter than the least depth the residual, its parity and the minimum length allow |
| LeastAction.QuietClosure | packages/browser/src/qucalc-enum.ts:86-97 | At that depth there is a closure that strays no further from balance than the position already has, or than one twist |
| LeastAction.ShallowestFits | packages/browser/src/qucalc-enum.ts:43-44 | No more than 5000 closures have the least depth if it is at most 5 or is the size of the residual |
| CapBound.CapIsHarmless | packages/browser/src/qucalc-enum.ts:43-44 | Whatever the minimum length, the answer is the least free action unless the least depth is 7 and the residual has size 1 or 3 |
| EventCap.CapHidesLeastAction | packages/browser/src/qucalc-enum.ts:43-44 | A position with a closure of peak 1 at depth 7 whose answer, at that depth, has a peak of at least 2 |
| Solving.SolverMissesIffNoDepthFits | packages/browser/src/qucalc-enum.ts:448-466 | It gives up exactly when the position is not closed already and no depth in reach is feasible and long enough |
| TieBreaks.TieBreakIsNotTwistOrder | packages/browser/src/qucalc-enum.ts:33-36 | A position whose winner is not the first in TWIST_ORDER |
| TieBreaks.OrdersAgreeIff | packages/browser/src/qucalc-enum.ts:33-36 | Character codes and TWIST_ORDER rank the twists a residual asks for alike exactly when it lies on one axis or asks only for horizontals and backslashes |
| TieBreaks.ComparatorAgreesIff | packages/browser/src/qucalc-enum.ts:401-407 | On a position's shortest completions, comparing histories is TWIST_ORDER within each phase exactly when the orders agree on the wanted twists or just two twists are wanted, neither of them `+` or `-` |
| Winners.WinnerIsFirstIff | packages/browser/src/qucalc-enum.ts:401-479 | Where the residual itself can be supplied, the winner is, of the closures of its depth and phase, the first in TWIST_ORDER exactly when the orders agree on the wanted twists, just two turns are wanted, or one turn twice and another once with the best phase going to the word with the single one in the middle |
| Solving.FloorEventsFitCap | packages/browser/src/qucalc-enum.ts:43-44 | At most 1536 closures have the depth of the residual, within the cap on ranked events |
| Solving.ResidualSupplies | packages/browser/src/qucalc-enum.ts:102-107 | The suggested completion supplies the residual and nothing more |
| Relaxation.PositiveTrust | packages/browser/src/gov.ts:252-275 | In every member order the relaxation stops on an unchanged round, before its bound, at the least fixed point |
| TrustLaws.LevelInRatings | packages/browser/src/gov.ts:239-275 | On the table of ratings: a level is the most that some admin-rooted chain carries, each rating on it at least that and one more for every rating still to come, and the length no more than 5 allows |
| TrustLaws.NobodyAboveRating | packages/browser/src/gov.ts:239-275 | An admin stands at 5; anybody else with standing is rated at least that high by a member standing at least one higher |
| Trust.LevelsAreClosed | packages/browser/src/gov.ts:239-275 | The levels are a fixed point above the admin seed |
| Trust.LevelsAreLeast | packages/browser/src/gov.ts:239-275 | They are the least one |
| Trust.LevelIsBestChain | packages/browser/src/gov.ts:239-275 | A level is the best value of an admin-rooted chain of ratings, 0 without one |
| Trust.LevelsAreMonotone | packages/browser/src/gov.ts:239-275 | Raising ratings lowers nobody |
| Trust.NoBootstrapping | packages/browser/src/gov.ts:239-246 | Non-admins whom nobody outside their set rates stay at level 0 |
| Accountability.Decide | packages/browser/src/gov.ts:292-305 | The targets of a round are those meeting the quorum in one snapshot, in any member order |
| Accountability.SlashedAfter | packages/browser/src/gov.ts:307-316 | Discrediting targets one after another depends only on their set |
| Accountability.ApplyAll | packages/browser/src/gov.ts:307-316 | A round's result is the same for every order of members and of targets |
| Accountability.Account | packages/browser/src/gov.ts:289-317 | The rounds end before their bound, with nobody left to discredit |
| Accountability.SettledNobodyDoomed | packages/browser/src/gov.ts:279-317 | At the end no standing member meets the quorum, and no level has risen |
| Accountability.DiscreditNeedsQuorum | packages/browser/src/gov.ts:280-304 | Discrediting takes two eligible censurers and two thirds of the eligible, never the target |
| AccountLaws.FallsIffDoomed | packages/browser/src/gov.ts:292-305 | A member with standing falls exactly when at least two, and two thirds, of the others standing as high censure them, whoever else does not |
| AccountLaws.OneMoreFallen | packages/browser/src/gov.ts:307-316 | One more fallen member stands at 0, and every other loses the smaller of their rating of them and their own first level, down to 0 |
| AccountLaws.LevelsByRounds | packages/browser/src/gov.ts:276-318 | The levels are the first ones, taken through rounds in which all who meet the quorum fall at once, until nobody does |
| Accountability.TrustLevels | packages/browser/src/gov.ts:247-318 | Both phases give the same levels for every order of members |
| Delegations.WalkIffReaches | packages/browser/src/gov.ts:212-223 | The walk with its seen-set ends at the first direct voter of the chain, cycles or not |
| Delegations.LandingLaw | packages/browser/src/gov.ts:187-232 | A vote lands there, and abstains exactly when the chain reaches none |
| FlowLaws.LandsWhereLed | packages/browser/src/gov.ts:212-223 | A vote lands on `v` exactly when delegations among members lead there past nobody who voted |
| FlowLaws.OneMoreMember | packages/browser/src/gov.ts:206-232 | One more member adds the table's weight, or 1 where it has none or a negative one, to the voter their vote lands on, or abstains |
| Delegations.ResolveWeights | packages/browser/src/gov.ts:197-233 | The resolver returns each landing, the weight landing on each voter, and the abstentions, the same for every listing of the members |
| Delegations.ResolutionIgnoresOrder | packages/browser/src/gov.ts:197-233 | Two listings of the same members give the same flow and weights and name the same members as abstaining |
| Delegations.WeightIsConserved | packages/browser/src/gov.ts:187-233 | Voters' weights and the abstaining base weight add up to the electorate's base weight |
| Delegations.OneMoreVoter | packages/browser/src/gov.ts:197-233 | One more direct voter enlarges neither the abstained set nor another voter's weight |
| Governance.TrustWeightsFor | packages/browser/src/gov.ts:335-344 | Base weights are 1 without ratings and 1 plus the trust level with them |
| Governance.DelegationMapFor | packages/browser/src/gov.ts:354-362 | The per-issue delegate overrides the standing one, for members only |
| FlowLaws.BaseWeightsLaw | packages/browser/src/gov.ts:335-344 | A base weight is 1, and 1 more than the trust level once anybody has rated anybody |
| FlowLaws.DelegateLaw | packages/browser/src/gov.ts:354-362 | A member's delegate is the issue's own where it has a row, else the standing one, and nobody where that is the empty id |
| Renaming.GroupRecord.RekeyMember | packages/browser/src/gov.ts:140-175 | Rewriting the fields in place moves the member and every reference to a fresh id |
| RenamingLaws.TrustLevelsCommute | packages/browser/src/gov.ts:136-175 | Trust levels after the renaming are the renamed trust levels |
| RenamingLaws.TrustWeightsCommute | packages/browser/src/gov.ts:136-175 | So are base weights |
| RenamingLaws.DelegationMapsCommute | packages/browser/src/gov.ts:136-175 | So are per-issue delegation maps |
| RenamingLaws.DelegationsFollow | packages/browser/src/gov.ts:136-158 | Every table of delegations has its rows under the new id, naming the new id, and none under the old |
| Rekeying.GovWeights | packages/browser/src/app.ts:9671-9679 | The weights of an issue's poll are those of the electorate whose direct voters are the members with a ballot |
| FlowLaws.ElectorateOfPoll | packages/browser/src/app.ts:9671-9679 | Members, direct voters, delegates and base weights of a poll, read off the record and the ballots |
| Rekeying.ElectorateFollowsIff | packages/browser/src/gov.ts:136-175 | After a re-keying the electorate is the renamed one exactly when both ids have a ballot in the poll or neither has |
| Rekeying.LandingsFollowIff | packages/browser/src/gov.ts:136-175 | Every vote lands on the renamed voter it landed on exactly then |
| Rekeying.WeightsFollowIff | packages/browser/src/gov.ts:136-175 | The weights given to the tally follow the member exactly then, however members are listed before and after |
| Rekeying.RekeyLosesVote | packages/browser/src/gov.ts:136-175 | A ballot cast under the old id only is lost: neither id carries weight and no vote lands on either |
| Rekeying.LoneVoteLost | packages/browser/src/gov.ts:136-175 | The smallest record in which that happens |
| Rekeying.ReweighAfterRekey | packages/browser/src/app.ts:9783-9796 | Re-keying the record in place and resolving again gives the renamed weights exactly when the ballots agree |
| Ballots.CleanBallot | packages/browser/src/polls.ts:47-52 | The loop keeps the first occurrences of valid options |
| Ballots.CleanKeepsValid | packages/browser/src/polls.ts:47-52 | A cleaned ballot has exactly the ballot's valid options, each once |
| Ballots.CleanKeepsOrder | packages/browser/src/polls.ts:47-52 | In the order of first mention |
| RankedChoice.TallyRanked | packages/browser/src/polls.ts:80-127 | The rounds, winners and total are those of the reference count; the fall-through return is dead |
| PollLaws.CountOfPoll | packages/browser/src/polls.ts:80-127 | On the entries as cast: the total is the weight of those that name a valid option and have weight; each round shows, for every option standing, the weight of those whose first standing option it is, and what names none; while nobody has more than half, the option with fewest goes, the first in string order among several |
| PollLaws.OneWinnerIffTaking | packages/browser/src/polls.ts:80-127 | There is one winner exactly when some entry names a valid option and its peer's weight (1 without a table, the table's, 0 if missing) is positive |
| PollLaws.TopIsChoice | packages/browser/src/polls.ts:47-52 | The cleaned ballot counts for the first option of the raw one that stands |
| PollLaws.IdOrder | packages/browser/src/polls.ts:122 | Ids are sorted by the first character that differs, a proper beginning first |
| RankedChoice.OneWinnerIffAnyVote | packages/browser/src/polls.ts:80-127 | Exactly one winner when some valid ballot has positive weight, none otherwise |
| RankedChoice.MutualMajority | packages/browser/src/polls.ts:80-127 | If ballots holding more than half the weight put a set above everything else, the winner is in the set |
| PollLaws.MajorityOfEntries | packages/browser/src/polls.ts:80-127 | If entries with more than half of the weight cast name all of a set before every other option, the winner is in the set |
| RankedChoice.EveryRoundAddsUp | packages/browser/src/polls.ts:90-102 | In every round the shown counts and the exhausted weight make the total |
| RankedChoice.RoundsWithinOptions | packages/browser/src/polls.ts:90 | There are never more rounds than options, so the guard never ends the loop |
| RankedChoice.TwoStandWithoutMajority | packages/browser/src/polls.ts:105-118 | Without a majority at least two options stand, so the last-one-standing branch is dead |
| RankedChoice.ElectionIgnoresOrder | packages/browser/src/polls.ts:80-127 | Rounds and winner are the same for every order of options and of ballots |
| VerbLaws.SwapOfA | packages/browser/src/rholang-exchange.js:137-156 | A sale of A is accepted exactly when the caller holds it and the reserve covers the largest amount of B not worth more; both reserves, both balances and the reply, and that nobody else's balance and no other pool changes |
| VerbLaws.SwapOfB | packages/browser/src/rholang-exchange.js:157-176 | The same for a sale of B |
| VerbLaws.NoSwap | packages/browser/src/rholang-exchange.js:137-176 | Any other side, a negative amount or an unknown pool is refused for that, and nothing changes |
| VerbLaws.OpenLaw | packages/browser/src/rholang-exchange.js:65-88 | A pool opens exactly under a new name at a positive rate, empty and its opener's |
| VerbLaws.ProvideLaw | packages/browser/src/rholang-exchange.js:90-105 | The owner, and nobody else, adds to a reserve |
| VerbLaws.DepositLaw | packages/browser/src/rholang-exchange.js:107-118 | Anybody adds to their own balance in a pool |
| VerbLaws.WithdrawLaw | packages/browser/src/rholang-exchange.js:179-200 | A withdrawal is accepted exactly up to the caller's own balance |
| VerbLaws.LinkLaw | packages/browser/src/rholang-exchange.js:202-214 | The owner, and nobody else, names a link |
| VerbLaws.SetRateLaw | packages/browser/src/rholang-exchange.js:429-443 | The owner, and nobody else, sets the rate, to the positive one asked for |
| VerbLaws.PrepareOfA | packages/browser/src/rholang-exchange.js:220-266 | A prepare moves what the swap would, exactly when that would be accepted and the id is free, and records it |
| VerbLaws.PrepareOfB | packages/browser/src/rholang-exchange.js:220-266 | The same for a sale of B |
| VerbLaws.NoPrepare | packages/browser/src/rholang-exchange.js:220-266 | Otherwise nothing changes |
| VerbLaws.ReceiveLaw | packages/browser/src/rholang-exchange.js:272-321 | A credit asks for a free id, a link and the reserve, moves the bought side only and records it |
| VerbLaws.NoReceive | packages/browser/src/rholang-exchange.js:272-321 | Otherwise nothing changes |
| VerbLaws.CommitLaw | packages/browser/src/rholang-exchange.js:326-341 | Only the holder commits, and not what is aborted |
| VerbLaws.AbortLaw | packages/browser/src/rholang-exchange.js:357-414 | The holder aborts at any time and everybody from the expiry on, never what has committed; what was moved goes back in the pool named |
| ExchangeLaws.StepConserves | packages/browser/src/rholang-exchange.js:90-414 | Every verb changes reserve plus balances by exactly what was moved in or out |
| ExchangeLaws.RunConserves | packages/browser/src/rholang-exchange.js:90-414 | Over every run each side holds what was provided and deposited less what was withdrawn |
| ExchangeLaws.AbortFreeRunsStaySolvent | packages/browser/src/rholang-exchange.js:90-341 | Without aborts no reserve and no balance is ever negative |
| ExchangeLaws.AbortSolventIff | packages/browser/src/rholang-exchange.js:357-414 | An abort keeps it so exactly when the holder still has what was bought and the pool what was sold to it |
| ExchangeLaws.RecordedAmountsNonNegative | packages/browser/src/rholang-exchange.js:220-321 | Recorded amounts are never negative |
| ExchangeLaws.AbortCanOverdraw | packages/browser/src/rholang-exchange.js:343-414 | A run of accepted verbs that ends with a negative balance |
| VerbLaws.SwapWorth | packages/browser/src/rholang-exchange.js:137-176 | An accepted swap of either side gains nothing, and loses less than 1000000 (or, selling B, `rate`) of `rate*a + 1000000*b` |
| ExchangeLaws.TradingNeverEnriches | packages/browser/src/rholang-exchange.js:90-266 | At a fixed rate no run leaves a holder worth more than they had and brought in |
| Estates.EstateNeverGrows | packages/browser/src/rholang-exchange.js:90-414 | Aborts included, a holder's worth stays within what they had, could take back and brought in |
| TwoPhase.LegsNeverSplit | packages/browser/src/exchange-2pc.ts:5-43 | Wherever the client crashes and whatever others do, recording the trade's id included, no leg of the trader's is committed while the other is aborted or missing, unless others abort a leg after expiry or a recovery takes another's record for the credit; where the id is the trader's on the local exchange, a truthful read says `inconsistent` exactly of another's committed record after the trader has backed out |
| TwoPhase.UnreachableReadIff | packages/browser/src/exchange-2pc.ts:27-43 | On every such run a read that cannot reach the remote leg says `inconsistent` exactly when the local leg has committed, though the legs agree, and, where nobody else holds the id, settled wrongly exactly when the local leg is final and the remote one still prepared |
| TwoPhase.InOrderCrashReadsInconsistent | packages/browser/src/exchange-2pc.ts:40-43 | Calls made in order, a crash after the local commit and an unreachable remote exchange read `inconsistent` with the remote leg still prepared |
| TwoPhase.InOrderCrashHappens | packages/browser/src/exchange-2pc.ts:40-43 | Two exchanges and a trade for which that run exists |
| TwoPhase.SettledMeansDone | packages/browser/src/exchange-2pc.ts:108-123 | Read truthfully, at any moment of any such run, settled means that no leg of the trader's is still reversible and both committed or neither did; where nobody else holds the id it is said exactly then |
| TwoPhase.FinishedMeansDone | packages/browser/src/exchange-2pc.ts:10-18 | A client that has made all its calls has its local leg settled, and the whole trade exactly when the remote leg is not left prepared; with truthful reads always |
| TradeLaws.TradeCompletes | packages/browser/src/exchange-2pc.ts:10-18 | Left alone the client ends with nothing recorded, or with its sale recorded and aborted, or with both legs committed in its name, the credit for what the sale buys |
| TradeLaws.RunsToEnd | packages/browser/src/exchange-2pc.ts:10-18 | What it asks of each exchange, call by call, and what it does on each refusal |
| TwoPhase.RecoveryEnds | packages/browser/src/exchange-2pc.ts:45-82 | Recovery from any such state, not misled, takes at most two leg calls whatever others do between them, and then both of the trader's legs committed or neither did and none is reversible |
| TwoPhase.AbortCancelsPrepare | packages/browser/src/rholang-exchange.js:343-414 | Across trades and rate changes in between, an abort takes back to the unit what its prepare moved exactly when it names the recorded pool or nothing was moved |
| TwoPhase.AbortTakesBackIff | packages/browser/src/rholang-exchange.js:357-414 | The same for any prepared record in any state |
| TwoPhase.AbortElsewhere | packages/browser/src/rholang-exchange.js:343-357 | An abort naming another pool leaves the sale standing and makes that pool's reserve and the holder's balance there negative |
| Expiry.ExpiryAbortSplits | packages/browser/src/exchange-2pc.ts:20-26 | An abort by anyone after expiry, between the two commits, splits the trade |
| Expiry.RemoteExpirySplitsIff | packages/browser/src/exchange-2pc.ts:10-29 | After an expired abort of the prepared remote leg by anyone, a truthful read says `inconsistent` then or within the client's next two calls exactly when a local commit has been made or is due |
| Expiry.RemoteExpiryHarmless | packages/browser/src/exchange-2pc.ts:10-29 | Otherwise no crash, recovery or stranger afterwards ever splits the legs |
| Expiry.LocalExpirySplitsIff | packages/browser/src/exchange-2pc.ts:10-29 | After one of the prepared local leg, it says so then or within three calls exactly when a remote commit has been made or is due, the credit is granted at the next call, or another's record under the id has committed |
| Expiry.LocalExpiryHarmless | packages/browser/src/exchange-2pc.ts:10-29 | With no remote commit made or due and the credit not being asked for next, nothing afterwards ever splits the trader's legs, an id recorded by others included, and a read says `inconsistent` exactly of another's committed record |
| Expiry.LocalExpiryInBothReady | packages/browser/src/exchange-2pc.ts:10-26 | Aborting the local leg when both are prepared ends with local aborted and remote committed |
| Expiry.LocalExpiryHappens | packages/browser/src/exchange-2pc.ts:10-26 | Two exchanges and a trade for which that happens |
| Expiry.ExpiryAbortSplitsIff | packages/browser/src/exchange-2pc.ts:20-26 | An expired abort of a prepared remote leg splits the trade at once exactly when the local leg has committed |
| Expiry.UnreachableRecoverySplitsIff | packages/browser/src/exchange-2pc.ts:27-56 | A recovery that cannot reach the remote leg ends with local aborted and remote committed exactly when the remote leg had committed and the local one was still prepared |
| SharedIds.MisledLosesIff | packages/browser/src/exchange-2pc.ts:45-56 | A truthful recovery of a pending sale leaves it standing without a credit exactly when the remote exchange shows the id in another's name and not aborted, whatever others do between its calls |
| SharedIds.BackedOutReadsInconsistent | packages/browser/src/exchange-2pc.ts:10-18 | With the id taken by another, a client in order backs out, and reads `inconsistent` once the other commits |
| SharedIds.CrashedIsMisled | packages/browser/src/exchange-2pc.ts:45-56 | After a crash it commits its sale and is refused the credit, and then reads `inconsistent` or settled as the other aborts or commits |
| SharedIds.SharedIdHappens | packages/browser/src/rholang-exchange.js:272-321 | Two exchanges, a trade and another's record for which both happen |
| Seats.LongestFitIsLongest | packages/signaling/src/room.ts:14-21 | Dropping the oldest until the rest fits leaves the longest suffix within both caps |
| Seats.Caps | packages/signaling/src/room.ts:14-21 | A queue has room for one more up to 256 payloads and 524288 code units |
| Seats.LongestFitSnoc | packages/signaling/src/room.ts:76-90 | Only the kept part matters to the next push |
| Seats.Push | packages/signaling/src/room.ts:76-90 | Pushing and shifting keeps the longest fitting suffix and its exact size |
| Serving.SignalingServer.Deliver | packages/signaling/src/room.ts:76-90 | A frame is sent, queued on a held seat, or lost |
| Serving.SignalingServer.Broadcast | packages/signaling/src/room.ts:69-74 | Every other seat of the room is served once, in whatever order they are visited, in any state of the server |
| Serving.SignalingServer.Flush | packages/signaling/src/room.ts:92-101 | The queue is replayed oldest first and emptied |
| Serving.SignalingServer.OnJoin | packages/signaling/src/server.ts:290-336 | The handler, updating the maps in place, is the modelled join |
| Serving.SignalingServer.ResumeSeat | packages/signaling/src/server.ts:302-321 | The resume branch |
| Serving.SignalingServer.TakeSeat | packages/signaling/src/server.ts:324-335 | The branch of a new seat |
| Serving.SignalingServer.HoldSeat | packages/signaling/src/server.ts:338-352 | The seat loses its socket and its timer is armed |
| Serving.SignalingServer.OnGraceTimer | packages/signaling/src/server.ts:346-350 | The timer announces the departure unless the seat was resumed |
| Serving.SignalingServer.OnLeave | packages/signaling/src/server.ts:354-364 | The seat and its index entries go, the room is told, an empty room is dropped |
| Serving.SignalingServer.OnLeaveMessage | packages/signaling/src/server.ts:276-284 | Only the sender's own peer may be named |
| Serving.SignalingServer.OnDisconnect | packages/signaling/src/server.ts:366-375 | Only the socket that still owns the seat puts it on hold |
| Serving.SignalingServer.OnData | packages/signaling/src/server.ts:387-399 | Control-plane frames to one peer or the room, authenticated by the socket |
| Serving.StepKeepsCount | packages/signaling/src/room.ts:76-100 | Every step in any state, misplaced or not, keeps `queuedBytes` exact on every seat |
| Serving.SignalingServer.Serve | packages/signaling/src/server.ts:208-399 | In any state every event is the modelled step; a consistent server stays so exactly when the step fits |
| Serving.Client.HandleSignal | packages/browser/src/peer.ts:931-1001 | The roster follows `peers`, `joined` and `left` |
| EventLaws.JoinLaw | packages/signaling/src/server.ts:324-335 | A new peer gets its seat and the list of peers, each other open seat of the room one `joined`, and nothing else changes |
| EventLaws.ResumeLaw | packages/signaling/src/server.ts:302-321 | A returning peer's seat moves to the new socket, the old one is cut off, the list of peers and the queue go out on the new one, and nobody else hears of it |
| EventLaws.JoinGivesUp | packages/signaling/src/server.ts:299-300 | A socket that speaks for another peer does what its leaving first would |
| EventLaws.LeaveLaw | packages/signaling/src/server.ts:276-284 | A peer's own leave takes its seat out of the room and the indexes, the room too when it was the last, and each other open seat gets one `left` |
| EventLaws.LeaveRefused | packages/signaling/src/server.ts:276-284 | A leave for another peer changes nothing but that the sender gets an error |
| EventLaws.CloseLaw | packages/signaling/src/server.ts:338-375 | A dead socket's seat loses it and gets a timer; no frame is sent and no other seat changes |
| EventLaws.TimeoutLaw | packages/signaling/src/server.ts:346-364 | A timer takes out a seat that is still held, as a leave would, and otherwise does nothing |
| EventLaws.DataLaw | packages/signaling/src/server.ts:387-399 | An authenticated payload reaches each seat it is for once, on its open socket or in its queue cut to the caps, and nothing else changes; a forged sender gets an error |
| SignalingSafety.LeaveKeepsInvIff | packages/signaling/src/server.ts:276-284 | A `leave` keeps the server consistent exactly when the room it names is unknown or the sender's own |
| SignalingJoin.JoinIsSettle | packages/signaling/src/server.ts:290-336 | A join that fits is a plain leave of the earlier seat followed by taking the new one |
| SignalingJoin.JoinKeepsInvIff | packages/signaling/src/server.ts:290-336 | A join keeps it consistent exactly when the peer sits in no other room and the socket does not empty this very room by giving up its seat |
| SignalingRuns.DisconnectKeepsInv | packages/signaling/src/server.ts:338-375 | A socket's death keeps it consistent |
| SignalingRuns.ExpireIsLeave | packages/signaling/src/server.ts:346-350 | A timer running out on a held seat is the ordinary departure, and nothing otherwise |
| SignalingRuns.ExpireKeepsInv | packages/signaling/src/server.ts:346-364 | A timer keeps it consistent |
| SignalingRuns.RelayKeepsInv | packages/signaling/src/server.ts:387-399 | The control plane keeps it consistent and changes no roster |
| SignalingRuns.StepKeepsInvIff | packages/signaling/src/server.ts:252-375 | One step keeps it consistent exactly when it is not a misplaced join or leave |
| SignalingQueues.RunConsistentIff | packages/signaling/src/server.ts:290-375 | Over every run from the start, maps, seats, timers and rosters agree throughout exactly when every step fits |
| SignalingQueues.QueueIsLongestFit | packages/signaling/src/room.ts:76-90 | On every run a held seat's queue is the longest fitting suffix of what was addressed to it since the hold, `queuedBytes` its exact size, and its timer is armed |
| SignalingQueues.ResumeReplays | packages/signaling/src/server.ts:290-321 | A resume on any socket, also one that gives up another seat for it, sends the list of peers and then that suffix oldest first, empties the queue, and tells nobody else of it |
| SignalingQueues.HoldIsSilent | packages/signaling/src/server.ts:338-352 | A dead socket is announced to nobody, and every seat on it is held |
| SignalingDelivery.StepAccounted | packages/signaling/src/room.ts:58-101 | In one step, what waited for a seat and what is addressed to it is, in order, what the step loses, what it puts on the seat's socket, and what is left waiting |
| SignalingDelivery.DeliveryInOrder | packages/signaling/src/room.ts:58-101 | On every fitting run, what went out on a seat's successive sockets, then its queue, is an ordered part of all that was addressed to it; the rest is what the caps dropped, what came while the socket was broken but not closed, and what was replayed to a socket no longer open |
| SignalingDelivery.NothingLostIff | packages/signaling/src/room.ts:58-60 | It is all of it exactly when no step lost any |
| SignalingDiscipline.DisciplinedRunsConsistent | packages/signaling/src/server.ts:290-375 | If each peer id keeps to one room, leaves name it, and each socket joins under one id, every run is consistent |
| Varints.EncodeVarint | packages/browser/src/rholang.ts:206-216 | The do-while loop emits the base-128 form |
| Varints.ReadsBack | packages/browser/src/rholang.ts:206-216 | A reader recovers the number, or its residue modulo 128 if it was negative, and the bytes after it |
| Varints.VarintIsShortest | packages/browser/src/rholang.ts:206-216 | It takes as many bytes as the number has base-128 digits |
| Varints.VarintDigits | packages/browser/src/rholang.ts:206-216 | Byte i carries the i-th base-128 digit |
| Varints.VarintEndsOnce | packages/browser/src/rholang.ts:206-216 | Exactly the last byte has its high bit clear |
| Utf8.CleanedIffWellFormed | packages/browser/src/rholang.ts:223-227 | Encoding a text loses nothing exactly when no surrogate is unpaired |
| Utf8.TextReadsBack | packages/browser/src/rholang.ts:223-227 | Decoding gives the text back with unpaired surrogates replaced |
| Utf8.BytesAreTheForm | packages/browser/src/rholang.ts:223-227 | Each character is written as a well-formed UTF-8 sequence (table 3-7 of the Unicode Standard) that stands for it |
| Utf8.FormStandsFor | packages/browser/src/rholang.ts:223-227 | Such a sequence has one, two, three or four bytes exactly as its character is below 0x80, 0x800, 0x10000 or 0x110000 |
| Utf8.OneFormEach | packages/browser/src/rholang.ts:223-227 | And no other stands for the same character |
| Utf8.WrittenByCharacter | packages/browser/src/rholang.ts:223-227 | A text is written as the sequences of its characters, of its surrogate pairs, and of U+FFFD for a surrogate on its own |
| Deploys.EncodeDeployData | packages/browser/src/rholang.ts:218-248 | The writer's bytes read back as the deploy in canonical form |
| Deploys.Layout | packages/browser/src/rholang.ts:238-248 | Byte by byte: the keys 12, 18, 38, 40, 50 and 5A (hexadecimal), each before its value or its length and text, absent for zero and the empty text |
| Deploys.ReadsParts | packages/browser/src/rholang.ts:195-204 | The bytes hold each field not at its default once, in ascending order of tag |
| Deploys.ReadsCanonical | packages/browser/src/rholang.ts:238-248 | A reader that fills in defaults recovers every deploy, up to negative numbers and unpaired surrogates |
| Deploys.RoundTripIff | packages/browser/src/rholang.ts:229-248 | The deploy itself comes back exactly when its numbers are not negative and its texts well formed |
| Deploys.EncodeIsInjective | packages/browser/src/rholang.ts:195-204 | Two such deploys never share their bytes |
| Deploys.SameBytesIff | packages/browser/src/rholang.ts:206-248 | Two deploys share their bytes exactly when cleaning their texts, and taking negative numbers modulo 128 (multiples of 128 all together), makes them equal |

## Left out

- Rounding and overflow of JavaScript numbers: weights and ratings are reals, counters and amounts unbounded integers. Sums therefore do not depend on the order of addition, which floating-point sums of fractional weights may.
- Varints.ReadsBack: reads numbers of any size; the 64-bit limit of the `int64` fields is not modelled, so values of 2^63 and more are read as written.
- The Rust `f64` matrices and the tolerance of the browser's comparison: entries are exact Gaussian integers.
- Enumerator.EnumerateClosures: returns the sequence of closures; that a generator hands them out one by one is not modelled. Nor are the fields `len`, `qc` and the `arrangements` counts, the listeners of `runSearch`, and the worker batching.
- LeastAction.SolverTakesLeastAction: is about positions not closed as they stand with a closure in reach of the depth searched; `Solving.SolverMissesIffNoDepthFits` covers the others.
- LeastAction.SolverTakesLeastActionIff: for a least depth of 7 and a residual of size 1 or 3 the condition is not reduced to the residual and the peak; `EventCap.CapHidesLeastAction` is a position where it fails.
- Winners.WinnerIsFirstIff: is about positions whose residual is not zero, in reach, and long enough to meet the minimum length; at greater depths the order of the winner is not characterised.
- RankedChoice.TallyRanked: assumes distinct option ids; ids are compared by character code as `sort` does for strings without surrogates. Approval polls are not modelled.
- Trust.LevelIsBestChain: ratings that are not numbers, and names such as `__proto__` used as ids, are not modelled.
- Renaming.GroupRecord.RekeyMember: for a new id that already occurs in the record it gives the members and the creator only; delegations and ratings of the two ids then collide, and which survive depends on key order.
- RenamingLaws.DelegationMapsCommute: assumes the two ids are non-empty, since the code takes an empty delegate for none; so do the laws of `Rekeying`.
- Rekeying.WeightsFollowIff: is about the poll's ballots as they are; that a member may vote again under the new id is then a second ballot, and is covered by the condition.
- Recognition of members by anchor (`memberKeyFor`, and `isAdmin` with an anchor), issues, labels, chain references, and vault records.
- Exchange.Contract.AbortLeg: the verbs are methods on the three cells, each equal to the step the laws speak of; naming a pool that does not exist makes the contract fail on a missing record; the failed deploy is taken to leave the cells as they were and is modelled as a refusal.
- The verbs `quote`, `stateOf` and `inspect` (reads only), capability uris, registry, and the generation of program text. A caller is its `deployerId`.
- ExchangeLaws.AbortFreeRunsStaySolvent: an abort may drive a balance or a reserve negative, see `ExchangeLaws.AbortCanOverdraw` and `ExchangeLaws.AbortSolventIff`.
- TwoPhase.LegsNeverSplit: assumes that every leg call is answered before the next status read (no call is still in flight at a crash), and that nobody else acts on the trade's id with the trader's key. Its other conditions (no abort by others after expiry, no recovery misled, truthful reads or the local leg first) are those the lemmas of `Expiry` and `SharedIds` are about.
- Estates.EstateNeverGrows: leaves out changes of the pool's rate, credits to the holder from another shard, and aborts that reverse another pool's leg of theirs here, each of which does change what they are worth.
- Serving.SignalingServer.OnData: assumes `queuedBytes` exact, as it is in every state a server can get into; the dropping loop would not end otherwise.
- Serving.SignalingServer.OnJoin: rooms and seats are values in the server's maps, so two handlers holding one room object is not modelled, except for the room dropped from the index while a join holds it.
- Signaling frames are abstract: JSON text, rate limiting, `ping`, the relay of `offer`, `answer` and `ice`, malformed messages, `stop` and the HTTP endpoint are not modelled, nor how long a grace timer runs: it may run out at any time.
- The relay of a broadcast visits seats in any order; the order of frames between different sockets is not modelled.
- Serving.Client.HandleSignal: only the roster; dialling, pins, pruning and callbacks of the browser's peer are not modelled.
- WebRTC, calls, recording, cryptography, editors, palettes, libraries and RhoQu programs.
