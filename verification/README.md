# Poker coach: a verified model of the analysis core and the durable stores

This project models the parts of the poker coach whose correctness rests on an argument rather than on
one line of code, and proves that argument for all inputs. It has five groups of modules.

**Hand evaluation** (`Cards`, `HandEvaluator`, `HandSets`, `HandSteps`, `HandTheorems`, `HandOrders`,
`HandShort`, `HandDraws`). The direct evaluator for five to seven cards is proved equal to the maximum of
the five-card evaluator over all five-card subsets. Both are also seen as functions of the *set* of
cards: the direct key grows with the set (`KeyGrows`), and every larger hand has a card it can spare
(`SpareExists`). The bound of seven is shown to be sharp; up to four cards the key is read off the rank
counts. The draw classification is proved against what completing a straight or a flush means.

**Equity and the bounded solver** (`Combos`, `RangeExpansion`, `Sums`, `Showdowns`, `Equity`, `Multiway`,
`EquityTheorems`, `EquityDeals`, `EquitySampling`, `JointSampling`, `JointExact`, `JointDraws`,
`ExactRiver`, `ResponseMix`, `Recommendation`). An exact run is specified by its list of showdowns. The
loops and accumulators are proved to report that list. The list is shown to hold every possible deal
exactly once; it is compared between the heads-up and the multiway routine, shown to conserve mass, and
counted. The backtracking enumerator of card-disjoint joint hands is proved to list exactly those hands
with their product weights. Candidate EVs follow from what each action wins and loses and are affine in
equity, from which the meaning of "robust" and "close" follows.

**Range beliefs** (`RangeBelief`, `BeliefChain`, `BeliefTrace`, `TraceMeaning`, `BeliefCutoffs`,
`Aggregation`, `Likelihood`, `FeatureTheorems`, `BeliefReplay`, `BeliefMeaning`, `LruCaches`,
`BeliefCaches`). The incremental chain of policy updates and dead cards has a closed form, and the last
snapshot of a trace is described by the cards seen and the seat's own actions. Traces do not depend on
what lies after their cut-off, and it is shown exactly when the board visible at the cut-off decides
them. The consumer of public events, with its seven caches keyed partly by object address, gives the
values of a replay without any cache; that replay leaves every seat its prior combos without the dealt
cards, weighed by its own actions.

**Durable stores** (`EventLog`, `EventLogRuns`, `OutboxLeases`, `Sessions`, `Projections`,
`SessionStats`). Each call is a transaction, hence one step of a state machine; the classes carry out the
steps row by row and are proved equal to them, and the safety properties hold over every run of steps.
Claims, acknowledgements and retries of the outbox are also stated row by row, with what a running lease
protects.

**Job queue** (`RedisQueue`, `RedisOutcomes`). Submitters, cancellers and workers move one Redis command
at a time, in any interleaving; the client class's methods are proved equal to the same commands run
without interruption.

Decimals are reals, chips and sequences integers. A random generator is an arbitrary function from
positions to reals in [0, 1). Errors are values of `Option`, `Outcome` and similar datatypes, so the
error branches are part of every contract.

## Where the code and its description differ

- Two scenarios that agree on everything visible at the cut-off can still have different traces: the
  board of a spot without deal events shows at its decision point and is hidden again after it.
  `BeliefCutoffs.StaticSpotHidesAgain` is such a spot, and `BeliefCutoffs.CutoffIsEnoughIff` says exactly
  which scenarios are affected.
- For the same reason a trace cut off at such a decision point ends with a deal that no later trace has
  (`BeliefCutoffs.EarlierIsPrefixIff`).
- Session totals do not depend on the order of the deliveries only if deliveries of one hand carry the same
  counters, because the store keeps the first contribution of a hand id
  (`SessionStats.FirstContributionStays`, `SessionStats.OrderDoesNotMatterIff`).
- In the response mix the branch for fold plus raise above 0.9 cannot be reached
  (`ResponseMix.RatesNeverMeetTheGuard`).
- In the event store the error for a taken sequence number cannot occur after a successful head
  comparison (`EventLog.FreshSequence`); the remaining identity conflict is a repeated event id.

## Model

| member | source | states |
|---|---|---|
| `HandTheorems.DirectIsBruteForce` | `backend/poker_coach/analysis/cards.py:108-191` | For every hand of five to seven distinct cards, in any order, the direct evaluator gives exactly the lexicographic maximum of the five-card evaluator over all five-card subsets, and neither side fails. |
| `HandTheorems.FiveAgrees` | `backend/poker_coach/analysis/cards.py:71-105` | The five-card evaluator, which works by its own branches, gives the direct evaluator's key on five distinct cards and never rejects them. |
| `HandTheorems.BestOfIsMaximum` | `backend/poker_coach/analysis/cards.py:108-127` | The maximum over the listed hands is attained by one of them and bounds all of them. |
| `HandTheorems.SubsetIsCombination` | `backend/poker_coach/analysis/cards.py:108-127` | Every subset of the wanted size is among the enumerated combinations. |
| `HandSteps.KeyGrows` | `backend/poker_coach/analysis/cards.py:130-179` | Over up to seven cards, a larger set of cards never has a smaller direct key than any five or more of its cards. |
| `HandSteps.SpareExists` | `backend/poker_coach/analysis/cards.py:130-179` | Every six or seven card hand has a card whose removal leaves the direct key unchanged. |
| `HandTheorems.PlayedCards` | `backend/poker_coach/analysis/cards.py:130-179` | Some five of the cards already have the direct key of the whole hand. |
| `HandSets.NoFullHandWithFlush` | `backend/poker_coach/analysis/cards.py:141-149` | At most seven cards never hold a flush together with quads or a full house, which is why the direct evaluator may stop at the flush. |
| `HandSets.CategoryWithoutFlush` | `backend/poker_coach/analysis/cards.py:151-179` | Without a flush the direct category is the strongest that the rank counts and straights allow. |
| `HandOrders.KeyIgnoresOrder` | `backend/poker_coach/analysis/cards.py:182-191` | The key does not depend on the order of the cards, whatever and however many they are. |
| `HandTheorems.KeyNeverDrops` | `backend/poker_coach/analysis/cards.py:182-191` | A sixth or seventh card never lowers the key. |
| `HandTheorems.FlushHidesQuads` | `backend/poker_coach/analysis/cards.py:130-149` | Beyond seven cards a plain flush with quads is a whole family on which the direct evaluator answers a flush and the maximum is at least quads. |
| `HandTheorems.SevenIsSharp` | `backend/poker_coach/analysis/cards.py:130-149` | With eight distinct cards the direct evaluator and the maximum can differ: the bound of seven is sharp. |
| `HandEvaluator.StraightHigh` | `backend/poker_coach/analysis/cards.py:59-68` | The loop over the ten sequences finds the greatest high card whose five ranks, with the wheel, are all present. |
| `HandShort.ShortHandKey` | `backend/poker_coach/analysis/cards.py:108-127` | With one to four distinct cards: quads, trips, two pairs, one pair or a high card, read off the ranks held four, three and two times; the ties are the rank of the quads or trips, the pair ranks from high to low, or all ranks from high to low. |
| `HandDraws.AnalyzeOuts` | `backend/poker_coach/analysis/hand.py:21-41` | On the flop and later, below a straight, a card is an out exactly when it is unseen and completes a straight or a flush; with a straight only flush cards are outs; otherwise there are none. Before the flop the category is the one of the short hand. |
| `HandDraws.OutsImprove` | `backend/poker_coach/analysis/hand.py:21-41` | Every such out lifts a hand of five or six cards to a straight or better, and to a strictly greater key. |
| `HandDraws.Draws` | `backend/poker_coach/analysis/hand.py:74-135` | The straight outs, the flush outs and the whole list of draw labels, for every category and street. |
| `HandDraws.MissingRanks` | `backend/poker_coach/analysis/hand.py:104-110` | The ranks gathered from the sequences with one missing rank are exactly the ranks that alone complete a straight. |
| `HandDraws.FlushOuts` | `backend/poker_coach/analysis/hand.py:92-98` | The flush outs are exactly the unseen cards of a suit held exactly four times. |
| `HandDraws.DrawLabels` | `backend/poker_coach/analysis/hand.py:98-134` | Which labels appear: flush or backdoor, open-ended with four consecutive ranks, gutshot for one missing rank, combo for both. |
| `JointExact.EnumerationExact` | `backend/poker_coach/simulator/fast_solver.py:461-508` | The leaves are every assignment of one combo per seat without a shared card, each exactly once, with the product of the marginal weights, whichever seat is taken first at each level. |
| `JointSampling.JointSearch.Enumerate` | `backend/poker_coach/simulator/fast_solver.py:461-508` | The backtracking search with its mutated assignment, leaves and state counter returns the specified leaves, and raises exactly when a cap is exceeded. |
| `JointSampling.JointSearch.TryAll` | `backend/poker_coach/simulator/fast_solver.py:493-508` | The loop over the options of the chosen seat, with what it leaves in the mutated accumulators. |
| `JointSampling.JointSearch.TryOne` | `backend/poker_coach/simulator/fast_solver.py:493-507` | One option: one counted state, the assigned cards, and the search below them. |
| `JointSampling.FewestOptions` | `backend/poker_coach/simulator/fast_solver.py:484-491` | The chosen seat has the fewest options left, with the seat number breaking ties. |
| `JointExact.ScanLeaves` | `backend/poker_coach/simulator/fast_solver.py:450-459` | The cumulative scan returns the leaf whose own sub-interval holds the threshold. |
| `Sums.HitsOnce` | `backend/poker_coach/simulator/fast_solver.py:450-459` | The sub-intervals of positive weights do not overlap and are as wide as the weights. |
| `JointExact.SampleJoint` | `backend/poker_coach/simulator/fast_solver.py:417-459` | The first of 24 rejection rounds without a repeated card, else the leaf that the next draw selects, else the cap error or the no-support error; a hand is always card-disjoint, and no support means that none exists. |
| `JointExact.DrawAll` | `backend/poker_coach/simulator/fast_solver.py:429-433` | One draw per seat that has entries, in seat order. |
| `JointDraws.RoundDraws` | `backend/poker_coach/simulator/fast_solver.py:429-433` | A rejection round fails exactly when some seat has no combo; otherwise the i-th seat holds the combo in whose part of its running sum the i-th draw of the round falls. |
| `JointDraws.AcceptedIff` | `backend/poker_coach/simulator/fast_solver.py:428-437` | A round is accepted exactly when it drew one combo per seat and no card lies in two hands. |
| `JointDraws.FirstAccepted` | `backend/poker_coach/simulator/fast_solver.py:428-437` | The rejection loop returns the first accepted round, every round starting where the one before it stopped drawing; without one it stops after the last draw. |
| `JointSampling.PrepareSampler` | `backend/poker_coach/simulator/fast_solver.py:521-547` | The entries are exactly the playable combos of positive probability, with their running sums. |
| `JointSampling.IndexIsProportional` | `backend/poker_coach/simulator/fast_solver.py:510-519` | A threshold selects the entry whose part of the running sum holds it. |
| `JointSampling.DrawIsProportional` | `backend/poker_coach/simulator/fast_solver.py:510-519` | A draw fails exactly for a seat without entries, and the threshold stays below the total. |
| `EquityTheorems.TwoPlayersAgree` | `backend/poker_coach/analysis/equity.py:121-366` | On every two-player input, with two different seats, the multiway routine and the heads-up routine both fail or give the same two equities, tie probability and trial count. |
| `EquityTheorems.HandVsHandAgrees` | `backend/poker_coach/analysis/equity.py:104-134` | Hand against hand plays exactly the showdowns of the two-seat multiway run, although boards and hands are sorted differently. |
| `EquityTheorems.HandVsRangeAgrees` | `backend/poker_coach/analysis/equity.py:155-187` | Hand against range removes the hero's cards from the range first; the multiway run skips clashing tuples; the showdowns are the same. |
| `EquityTheorems.RangeVsRangeAgrees` | `backend/poker_coach/analysis/equity.py:209-258` | The same for range against range. |
| `EquityTheorems.RangeVsHandAgrees` | `backend/poker_coach/analysis/equity.py:155-187` | With the range in the first seat the showdowns are those of hand against range with the players swapped. |
| `EquityTheorems.MassConserved` | `backend/poker_coach/analysis/equity.py:66-95` | For any player count and tie pattern the seats' win masses sum to the total mass. |
| `EquityTheorems.ShowdownConserves` | `backend/poker_coach/analysis/equity.py:80-95` | One showdown hands out exactly its weight. |
| `EquityTheorems.EquitiesSumToOne` | `backend/poker_coach/analysis/equity.py:397-443` | The equities of all seats sum to one. |
| `EquityTheorems.TrialsAreWorkload` | `backend/poker_coach/analysis/equity.py:328-359` | The number of exact trials is the precomputed sum of binomials over the tuples without a clash. |
| `EquityTheorems.SplitTieVariance` | `backend/poker_coach/analysis/equity.py:418-432` | For equally weighted trials the variance E[X^2]-E[X]^2 of a split-tie share is never negative. |
| `EquityDeals.RunoutsOnce` | `backend/poker_coach/analysis/equity.py:603-609` | The runouts are the sets of as many unseen cards as the board lacks, each exactly once. |
| `EquityDeals.EveryDealOnce` | `backend/poker_coach/analysis/equity.py:282-366` | An accepted exact multiway run plays every possible deal exactly once - a combo of positive weight for every seat, apart from the board and from each other, with a set of unseen cards for the rest of the board - on that full board and with the product of the weights; a refused one plays none. |
| `EquityDeals.HeadsUpDeals` | `backend/poker_coach/analysis/equity.py:104-258` | The same deals, each exactly once, for hand against hand, hand against range and range against range. |
| `EquityDeals.PicksReachAll` | `backend/poker_coach/analysis/equity.py:367-389` | A sampled pick fills the board with unseen cards of the tuple, and every such set of cards is reached by some pick. |
| `EquityDeals.TuplesOnce` | `backend/poker_coach/analysis/equity.py:328-330` | The product lists every choice of one combo per seat only once. |
| `Equity.EvaluateHandVsHand` | `backend/poker_coach/analysis/equity.py:104-134` | The loop's result reports the equities, ties and count of the specified showdowns, and fails exactly without showdowns or beyond the cap. |
| `Equity.EvaluateHandVsRange` | `backend/poker_coach/analysis/equity.py:155-187` | The same for hand against range. |
| `Equity.EvaluateRangeVsRange` | `backend/poker_coach/analysis/equity.py:209-258` | The same for range against range. |
| `Equity.CountHandVsCombos` | `backend/poker_coach/analysis/equity.py:172-174` | The announced workload is the number of trials that the loops then run. |
| `Equity.CountRow` | `backend/poker_coach/analysis/equity.py:228-237` | The same for one row of range against range. |
| `Multiway.EvaluateMultiway` | `backend/poker_coach/analysis/equity.py:282-366` | The exact multiway run over the product of the seats' combos, reported for any number of seats; repeated seats are refused, as the result model does. |
| `Multiway.CountTuples` | `backend/poker_coach/analysis/equity.py:328-337` | The precomputed workload of the product loop equals the number of trials it then runs. |
| `Multiway.TupleMember` | `backend/poker_coach/analysis/equity.py:328-330` | The product lists exactly the choices of one combo per seat. |
| `Multiway.PrepareSeats` | `backend/poker_coach/analysis/equity.py:303-321` | A seat is rejected exactly when it has no combo left or a combo repeats a board card. |
| `Multiway.Report` | `backend/poker_coach/analysis/equity.py:397-443` | Equities and tie probability are the masses over the total. |
| `Showdowns.MultiwayAccumulator.Add` | `backend/poker_coach/analysis/equity.py:80-95` | One more showdown in the tallied log: every best hand is credited an equal part, the ties and totals are kept. |
| `Showdowns.Accumulator.Add` | `backend/poker_coach/analysis/equity.py:47-63` | One more showdown in the heads-up tallies, both counted and weighed. |
| `Showdowns.Accumulator.Result` | `backend/poker_coach/analysis/equity.py:503-558` | Outright wins plus half the ties over the total are the equities of an equal split; without a trial it fails. |
| `Showdowns.TwoPlayerShare` | `backend/poker_coach/analysis/equity.py:503-558` | Half of a tie plus the outright win is an equal split among the best hands. |
| `Equity.CountCombinations` | `backend/poker_coach/analysis/equity.py:603-609` | The runouts of the remaining cards number the binomial coefficient. |
| `EquitySampling.WeightedChoice` | `backend/poker_coach/analysis/equity.py:612-622` | The combo whose part of the running sum holds the target; none only for an empty list. |
| `EquitySampling.SampleTuple` | `backend/poker_coach/analysis/equity.py:460-487` | The first round whose drawn tuple has no clash; it fails only when a seat is empty or every round clashes. |
| `EquitySampling.DrawnOnce` | `backend/poker_coach/analysis/equity.py:460-487` | The draws of a round select at most one tuple. |
| `EquitySampling.SampleMultiway` | `backend/poker_coach/analysis/equity.py:367-389` | The sampled trials are exactly those that the draws and picks determine, each the first accepted tuple on its runout with weight one; there is no result exactly when some trial gets stuck. |
| `EquitySampling.PlaysOnce` | `backend/poker_coach/analysis/equity.py:367-389` | The draws and picks determine every trial and the next unused draw. |
| `EquitySampling.PlayedIsNotDry` | `backend/poker_coach/analysis/equity.py:367-389` | A run that plays all its trials has no stuck one. |
| `EquitySampling.EvaluateMultiwaySampled` | `backend/poker_coach/analysis/equity.py:282-443` | The whole sampled call: its exact failure condition, the equities and tie probability of the played trials, and the square of every standard error as the variance over the number of trials, never negative. |
| `ExactRiver.ExactHeadsUpRiver` | `backend/poker_coach/simulator/fast_solver.py:594-628` | The river shortcut gives the equity engine's hand-against-range equity, the number of combos, and the effective number of combos of their weights, which lies between one and that number. |
| `ExactRiver.RiverIsHandVsCombos` | `backend/poker_coach/simulator/fast_solver.py:594-628` | On a full board the exact trials are one showdown per combo. |
| `ExactRiver.HeroShareIsShare` | `backend/poker_coach/simulator/fast_solver.py:578-592` | The hero's share of a sampled showdown is what the multiway tally credits. |
| `Recommendation.EvIsAffine` | `backend/poker_coach/simulator/fast_solver.py:708-729` | Each candidate's EV is affine in equity, and the slope is its sensitivity, which is not negative. |
| `Recommendation.IntervalIsImage` | `backend/poker_coach/simulator/fast_solver.py:666-770` | The EV interval is exactly the set of EVs over the equity interval. |
| `Recommendation.SeparatedIffBeats` | `backend/poker_coach/simulator/fast_solver.py:913-930` | The difference interval lies above zero exactly when one action beats the other at every equity within the sampling radius. |
| `Recommendation.DifferenceIsAffine` | `backend/poker_coach/simulator/fast_solver.py:905-930` | The difference of two EVs moves with the difference of their sensitivities. |
| `Recommendation.Calibrate` | `backend/poker_coach/simulator/fast_solver.py:772-863` | Robust exactly when the best action strictly beats every alternative throughout the radius, and then it is recommended; close only picks the best or one that it does not strictly beat; with every row's difference interval and the margin interval, positive when robust and not when a close alternative is chosen. |
| `Recommendation.Choose` | `backend/poker_coach/simulator/fast_solver.py:810-849` | Which candidate is chosen, and which tier it gets: separated, most conservative among the close, or best non-extreme without uncertainty. |
| `Recommendation.CloseAlternatives` | `backend/poker_coach/simulator/fast_solver.py:821-826` | Exactly the alternatives that the interval does not separate from the point estimate. |
| `Recommendation.Compare` | `backend/poker_coach/simulator/fast_solver.py:786-804` | Every candidate's difference to the point estimate and its interval. |
| `Recommendation.CandidateIsPriced` | `backend/poker_coach/simulator/fast_solver.py:666-770` | A candidate of a legal choice has its branch's EV at the equity, and its interval is exactly the set of its EVs over the equity interval. |
| `Recommendation.CandidatesPay` | `backend/poker_coach/simulator/fast_solver.py:666-770` | Every candidate's EV follows from what it wins and loses: nothing for a fold; the pot or nothing for a check; the pot or minus the cost for a call; for a bet or raise the pot when all fold, the pot and the opponents' calls or minus the cost when called, and minus the cost when raised. |
| `Recommendation.PayoffsAtTheEnds` | `backend/poker_coach/simulator/fast_solver.py:666-770` | The EVs at equity 0 and at equity 1 for every action. |
| `Recommendation.CallBeatsFold` | `backend/poker_coach/simulator/fast_solver.py:708-716` | A call beats a fold exactly when equity times the pot after the call exceeds the cost. |
| `Recommendation.FoldOrCall` | `backend/poker_coach/simulator/fast_solver.py:772-863` | Between a fold and a call at exact equity the better one is recommended, robustly; at equal value the call, as close. |
| `Recommendation.CallsAdd` | `backend/poker_coach/simulator/fast_solver.py:690-729` | When all call, every opponent adds what it lacks up to the target, or its stack, whichever is less; the observer adds nothing. |
| `Recommendation.SizesMean` | `backend/poker_coach/simulator/fast_solver.py:666-770` | A jam costs the stack, an overbet more than the pot without being a jam, and sizes are percentages of the pot. |
| `Recommendation.IntervalIsClamped` | `backend/poker_coach/simulator/fast_solver.py:1011-1023` | The equity interval holds exactly the equities within the radius that are probabilities. |
| `Recommendation.ConservativeOrder` | `backend/poker_coach/simulator/fast_solver.py:881-903` | The order of the close candidates is total and transitive: jams and overbets last, then check, call, bet or raise, fold, then the distance from 66 percent of the pot, then the cost. |
| `Recommendation.PointOrder` | `backend/poker_coach/simulator/fast_solver.py:865-872` | The order of the point estimates is total and transitive: EV, then the action's name, then the amount. |
| `Recommendation.CandidatesFromEquity` | `backend/poker_coach/simulator/fast_solver.py:285-292` | The candidates of legal choices, with the response mix of each, are all priced at the one estimated equity. |
| `Recommendation.Recommend` | `backend/poker_coach/simulator/fast_solver.py:280-303` | The end of the solver for any spot and legal choices: robust exactly when the recommended choice strictly beats every other choice at every equity within the sampling radius. |
| `Recommendation.Challenger` | `backend/poker_coach/simulator/fast_solver.py:827-830` | The best of the alternatives to the point estimate, or the point estimate itself. |
| `ResponseMix.ResponseIsDistribution` | `backend/poker_coach/simulator/fast_solver.py:932-1009` | For every observation and any number of opponents fold, call and raise lie in [0,1] and sum to one. |
| `ResponseMix.FoldNeverRises` | `backend/poker_coach/simulator/fast_solver.py:990-1009` | At fixed rates one more opponent never raises the fold probability and never lowers the raise probability. |
| `ResponseMix.EffectiveBounds` | `backend/poker_coach/simulator/fast_solver.py:617-628` | The effective number of combos lies between one and the number of combos. |
| `ResponseMix.Width` | `backend/poker_coach/simulator/fast_solver.py:961-985` | The effective width of an opponent's range is a positive fraction of the feasible combos. |
| `ResponseMix.RatesNeverMeetTheGuard` | `backend/poker_coach/simulator/fast_solver.py:986-1000` | The guard on fold plus raise never fires, because the two clamps already keep the sum below it. |
| `ResponseMix.ResponseExists` | `backend/poker_coach/simulator/fast_solver.py:932-960` | A bet or raise has a response mix exactly on the four betting streets; every other action is called for certain. |
| `ResponseMix.JointIsIndependent` | `backend/poker_coach/simulator/fast_solver.py:990-1009` | All fold with the power of the single fold rate, some opponent raises with one minus the power of not raising, and calls take the rest. |
| `ResponseMix.ResponseIsJoint` | `backend/poker_coach/simulator/fast_solver.py:932-1009` | The mix of an action is that joint of the single rates at its cost and at the strength of the opponents' ranges. |
| `ResponseMix.RatesFollow` | `backend/poker_coach/simulator/fast_solver.py:961-1000` | A larger cost never makes an opponent fold less or raise more; a stronger range never makes it fold more or raise less. |
| `ResponseMix.PotSizedBet` | `backend/poker_coach/simulator/fast_solver.py:961-1000` | A pot-sized flop bet from the button with deep stacks: the fold and raise rates, in numbers. |
| `ResponseMix.EqualWeightsCountInFull` | `backend/poker_coach/simulator/fast_solver.py:617-628` | Equal weights count as many effective combos as there are combos. |
| `ResponseMix.StrengthIsNarrowness` | `backend/poker_coach/simulator/fast_solver.py:961-985` | The strength is a half without ranges and lies between zero and one with them; for a single opponent it is the share of the feasible combos that its range leaves out. |
| `ResponseMix.WidthIsShare` | `backend/poker_coach/simulator/fast_solver.py:961-985` | The width of a range is its effective number of combos as a share of the feasible ones, and one when it has more. |
| `BeliefChain.ChainIsClosedForm` | `backend/poker_coach/ranges/update.py:91-225` | After any chain of deals and policy updates, the surviving combos are the prior combos that no dead card hits and no factor zeroes, each with its prior weight times the product of its likelihoods. |
| `BeliefChain.ClosedFormMembers` | `backend/poker_coach/ranges/update.py:91-225` | Membership in the closed form, spelled out for every combo. |
| `BeliefChain.DealStep` | `backend/poker_coach/ranges/update.py:91-146` | Applying dead cards is a chain step that leaves probabilities as reach over the total. |
| `BeliefChain.ActStep` | `backend/poker_coach/ranges/update.py:149-225` | A policy update is a chain step with the matched column's likelihoods. |
| `BeliefChain.ProbabilitiesSumToOne` | `backend/poker_coach/ranges/belief.py:152-157` | Reach over total reach sums to one. |
| `RangeBelief.UpdateRangeBelief` | `backend/poker_coach/ranges/update.py:149-225` | The loop over the prior's combos computes the specified update, with every refusal and failure. |
| `RangeBelief.SnapshotFromRange` | `backend/poker_coach/ranges/update.py:53-88` | The loop over the expanded combos computes the prior snapshot, or refuses an empty one. |
| `RangeBelief.SizeIsNearest` | `backend/poker_coach/ranges/policy.py:185-257` | An exact match exists exactly when a size is within the tolerance, and is one such size; otherwise the nearest size is taken, ties to the smaller. |
| `RangeBelief.MatchIsOwnFamily` | `backend/poker_coach/ranges/policy.py:158-275` | An action maps to a column of its own kind; only a raise without raise columns maps to an all-in. |
| `RangeBelief.SizedMatch` | `backend/poker_coach/ranges/policy.py:158-275` | A bet, raise or all-in: refused on a label that does not parse, unsupported without a column, otherwise the smallest column within 0.000001 of amount over pot, or the nearest one with ties to the smaller, sizes taken as fractions of the reference pot; without an amount or a pot the same in chips and without tolerance. |
| `RangeBelief.UnsizedMatch` | `backend/poker_coach/ranges/policy.py:158-212` | A check, call or fold maps to its own column when the policy lists it exactly once, and to nothing otherwise. |
| `RangeBelief.CompletePoliciesNeverCrash` | `backend/poker_coach/ranges/policy.py:111-138` | A validated complete policy has a value for every matched column and every combo. |
| `BeliefTrace.TraceIsClosedForm` | `backend/poker_coach/ranges/trace.py:64-191` | Every snapshot of every trace is the closed form of the steps before it, and its probabilities sum to one. |
| `BeliefTrace.BuildTrace` | `backend/poker_coach/ranges/trace.py:64-191` | The loop with its early returns computes the specified trace and status. |
| `BeliefTrace.NonInterference` | `backend/poker_coach/ranges/trace.py:64-191` | Scenarios that agree on the visible events, the decision point, the known cards and the boards shown up to k have equal traces at k, for every provider. |
| `BeliefTrace.TraceReads` | `backend/poker_coach/ranges/trace.py:98-191` | The board matters only at the start, at deals, at the tracked seat's betting actions, and at the cut-off. |
| `TraceMeaning.TraceMeans` | `backend/poker_coach/ranges/trace.py:64-191` | While a trace is available, its updates are the seat's own actions up to the cut-off in order, each with the matched column of the first provider that covers it, asked with the combos of the snapshot before; the last snapshot holds exactly the combos of the range without a seen card and with positive likelihoods, with weight times likelihoods as reach. Seen are the other seats' known cards and every board card visible at the start, the cut-off, a deal or an own action. |
| `TraceMeaning.BoardAtMeans` | `backend/poker_coach/ranges/trace.py:229-253` | The board at a sequence is the prefix that some earlier deal shows, or without a deal the one of the decision's street at the decision point. |
| `TraceMeaning.OwnEventsAre` | `backend/poker_coach/ranges/trace.py:98-123` | The own actions are exactly the seat's checks, calls, bets, raises, all-ins and folds. |
| `BeliefCutoffs.CutoffIsEnoughIff` | `backend/poker_coach/ranges/trace.py:229-253` | Agreeing on everything visible at k, with the board only as shown at k, gives equal traces in every setting and for every other valid scenario, exactly when k does not hide again a static board that an earlier decision point has read. |
| `BeliefCutoffs.CutoffIsEnough` | `backend/poker_coach/ranges/trace.py:64-191` | The one half, for each pair of scenarios and each setting. |
| `BeliefCutoffs.HiddenBoardInterferes` | `backend/poker_coach/ranges/trace.py:229-253` | The other half: otherwise there is a valid scenario, equally visible at k, and a provider or prior under which the traces differ. |
| `BeliefCutoffs.StaticSpotHidesAgain` | `backend/poker_coach/ranges/trace.py:245-253` | A concrete flop spot without deals whose board shows at 1 and is hidden again at 2. |
| `BeliefCutoffs.EarlierIsPrefixIff` | `backend/poker_coach/ranges/trace.py:64-191` | An earlier cut-off gives a prefix of the later chain exactly when it does not itself apply a static board. |
| `BeliefCutoffs.EarlierIsPrefix` | `backend/poker_coach/ranges/trace.py:64-191` | In particular whenever no static board shows at the earlier cut-off. |
| `BeliefCutoffs.AppliedIsDealt` | `backend/poker_coach/ranges/trace.py:98-191` | While available, the loop has applied exactly the board that the deals so far reveal. |
| `Aggregation.AggregateToMatrix` | `backend/poker_coach/ranges/aggregation.py:51-104` | For combos visited in any order, every cell with a combo carries the sums of reach and probability, the prior's sum and the number of combos, no other cell exists, and every column of the returned cells conserves its sum. |
| `Aggregation.MatrixConserves` | `backend/poker_coach/ranges/aggregation.py:51-104` | For every snapshot and every prior, whatever combos only one of them holds: the returned reach, probability and prior columns sum to what the two lists hold, the differences to the difference, and every combo is counted once. |
| `Aggregation.MatrixRoundTrip` | `backend/poker_coach/analysis/range_analysis.py:16-37` | Expanding a matrix range and aggregating it back returns, for every cell of positive weight, that weight times 6, 4 or 12 and that number of combos. |
| `Aggregation.CellsAreDisjoint` | `backend/poker_coach/analysis/range_analysis.py:160-178` | Distinct cells never share a combo. |
| `RangeExpansion.CellRoundTrip` | `backend/poker_coach/analysis/range_analysis.py:160-178` | A cell's combos are exactly the sorted pairs that map back to the cell, each once, 6, 4 or 12 of them. |
| `RangeExpansion.ExpansionExact` | `backend/poker_coach/analysis/range_analysis.py:16-37` | The expansion lists every combo of positive weight exactly once, with concrete entries replacing cells and dead cards removing them. |
| `RangeExpansion.ExpandRange` | `backend/poker_coach/analysis/range_analysis.py:16-37` | The two loops over cells and concrete combos compute the specified list. |
| `RangeExpansion.DeadCardsFilter` | `backend/poker_coach/analysis/range_analysis.py:16-37` | Removing more dead cards before the expansion equals dropping their combos after it. |
| `Likelihood.LikelihoodFactors` | `backend/poker_coach/ranges/likelihood.py:33-118` | Amounts, pots and stacks reach the likelihood only through the size and stack buckets, and it stays in its safe interval. |
| `Likelihood.LikelihoodDirection` | `backend/poker_coach/ranges/likelihood.py:72-119` | Of two hands in one spot the one with better features bets, raises and calls at least as often and folds and checks at most as often, strictly so unless both values are clipped. |
| `Likelihood.SizeDirection` | `backend/poker_coach/ranges/likelihood.py:72-119` | A larger size never makes a call more likely; it never makes a bet or raise more likely up to a strength of 36/7, and never less likely above. |
| `Likelihood.AcesRaise` | `backend/poker_coach/ranges/likelihood.py:72-119` | Aces in early position with a deep stack: a raise of two thirds of the pot and a fold, in numbers. |
| `Likelihood.PairAndDraw` | `backend/poker_coach/ranges/likelihood.py:72-119` | One pair with a flush draw on the flop: a pot-sized bet, a call, a fold and a check, in numbers. |
| `Likelihood.LongestRun` | `backend/poker_coach/ranges/likelihood.py:166-173` | The loop over the sorted values computes the longest run. |
| `Likelihood.LongestIsLongest` | `backend/poker_coach/ranges/likelihood.py:166-173` | That number is attained by consecutive values and no longer run exists. |
| `FeatureTheorems.FeaturesMean` | `backend/poker_coach/ranges/likelihood.py:121-163` | On the flop, turn and river the made feature is a function of the hand evaluator's category; below a straight the draw feature counts two exactly for a suit held four times, and one only if some rank completes a straight. |
| `FeatureTheorems.LongRunIsStraight` | `backend/poker_coach/ranges/likelihood.py:152-157` | Five values in a row, with the ace also low, are exactly a straight of the evaluator. |
| `BeliefCaches.BeliefConsumer.BeliefsAt` | `backend/poker_coach/ranges/event_beliefs.py:150-263` | Whatever earlier calls left in the caches, the answer has the reach, probability and mass values of the replay without caches, and every cache stays within its bound. |
| `BeliefCaches.BeliefConsumer.ReplayEvents` | `backend/poker_coach/ranges/event_beliefs.py:184-257` | The loop over the public events, with cached transitions, computes the uncached replay. |
| `BeliefCaches.BeliefConsumer.SpreadFor` | `backend/poker_coach/ranges/event_beliefs.py:363-408` | The distribution cache returns the distribution of the given action and context, although its key keeps only buckets and an address. |
| `BeliefCaches.BeliefConsumer.ApplyBlockers` | `backend/poker_coach/ranges/event_beliefs.py:484-503` | The blocker cache returns the snapshot that would be computed. |
| `BeliefCaches.BeliefConsumer.ApplyAction` | `backend/poker_coach/ranges/event_beliefs.py:339-437` | The transition cache returns the snapshot that would be computed. |
| `BeliefCaches.BeliefConsumer.MarkInactive` | `backend/poker_coach/ranges/event_beliefs.py:440-481` | A fold updates the marginal like any action; the inactive copy keeps its numbers. |
| `BeliefCaches.BeliefConsumer.Copies` | `backend/poker_coach/ranges/event_beliefs.py:595-670` | The immutable copies keep the numbers. |
| `BeliefMeaning.BeliefsMean` | `backend/poker_coach/ranges/event_beliefs.py:150-263` | What the answer holds: a reason for a stream that is not numbered from 1, shows private cards or lacks a prior; otherwise, unless an exception is raised, for every active seat exactly its prior combos without a dealt card, each reach the prior reach times the likelihoods of the seat's own actions up to the target, each probability the reach over their sum when that is positive, and inactive exactly after a fold. A prior lists a combo once. |
| `BeliefMeaning.ReplayIsClosedForm` | `backend/poker_coach/ranges/event_beliefs.py:184-257` | The replay of any public events leaves every seat in that closed form, and every likelihood is the table's value in the matched column, or the heuristic one on the board, pot and stack before the action. |
| `BeliefMeaning.NormalizedMeans` | `backend/poker_coach/ranges/event_beliefs.py:506-515` | Normalising keeps every combo with its reach, and with positive mass the probabilities are reaches over the mass. |
| `BeliefMeaning.DealSucceeds` | `backend/poker_coach/ranges/event_beliefs.py:484-503` | A deal raises nothing when every seat keeps a combo of positive reach. |
| `BeliefMeaning.ActionSucceeds` | `backend/poker_coach/ranges/event_beliefs.py:339-437` | An action of a known seat raises nothing when it keeps some reach positive. |
| `BeliefMeaning.ActionMovesChips` | `backend/poker_coach/ranges/event_beliefs.py:518-542` | An action moves chips from the actor's stack to the pot: up to the amount for a total, the amount itself for a cost, nothing without an amount, and never more than the stack; everything else stays. |
| `BeliefMeaning.StreetPayments` | `backend/poker_coach/ranges/event_beliefs.py:184-257` | After a deal the amounts on the street are what each seat has paid since, the pot has grown by what was paid, and the board is the one lying there. |
| `BeliefMeaning.OpeningPays` | `backend/poker_coach/ranges/event_beliefs.py:191-203` | Antes and blinds: the pot holds them all, and every active stack is reduced by its own, not below zero. |
| `BeliefReplay.SpreadFactors` | `backend/poker_coach/ranges/event_beliefs.py:363-408` | Equal buckets give equal distributions, which is what makes the distribution cache's key sufficient. |
| `BeliefReplay.LastShareIsRest` | `backend/poker_coach/ranges/event_beliefs.py:506-515` | Giving the last combo the rest is the same as giving it its share, when the mass is positive. |
| `LruCaches.StoreKeeps` | `backend/poker_coach/ranges/event_beliefs.py:585-592` | An insertion keeps the bound and distinct keys, adds only its own entry, and makes it findable. |
| `LruCaches.TouchKeeps` | `backend/poker_coach/ranges/event_beliefs.py:574-582` | A hit keeps the entries and the bound. |
| `LruCaches.Store` | `backend/poker_coach/ranges/event_beliefs.py:585-592` | The insertion with its eviction loop. |
| `EventLogRuns.ReachableConsistent` | `backend/poker_coach/persistence/hand_event_store.py:83-342` | In every reachable store hands are numbered 1 to n, event ids and outbox keys are unique, every message names a logged event, and worker, lease and token are set exactly while processing. |
| `EventLogRuns.AppendIsAtomic` | `backend/poker_coach/persistence/hand_event_store.py:83-195` | A failed append changes nothing; a successful one adds its whole batch after the expected head and every intent. |
| `EventLogRuns.RacingAppends` | `backend/poker_coach/persistence/hand_event_store.py:83-195` | Of appends to one hand from the same expected sequence at most one succeeds in any run. |
| `EventLogRuns.ReadIsGapless` | `backend/poker_coach/persistence/hand_event_store.py:197-209` | A read returns the hand's events in append order, numbered 1 to n. |
| `EventLogRuns.ReadAfterAppend` | `backend/poker_coach/persistence/hand_event_store.py:83-209` | After an append a read returns the earlier events followed by the batch; other hands read the same. |
| `EventLogRuns.ClaimTakesLeast` | `backend/poker_coach/persistence/hand_event_store.py:228-246` | A claim takes the least ready ids, in order, up to the limit. |
| `EventLogRuns.OutboxAccounts` | `backend/poker_coach/persistence/hand_event_store.py:211-342` | In every run the attempt count is the number of grants, the stored token is the latest grant, and a message is acknowledged at most once, exactly when dispatched. |
| `OutboxLeases.ClaimLaw` | `backend/poker_coach/persistence/hand_event_store.py:211-261` | A claim at now needs a worker, a lease and a limit; it grants exactly the least ids, up to the limit, of the messages that are due and either pending or processing with a lease over at now. A granted one gets the worker, its token, one more attempt and a lease from now on; another one whose lease is over goes back to pending; every other row, such as one with a running lease, stays exactly as it was. |
| `OutboxLeases.AckLaw` | `backend/poker_coach/persistence/hand_event_store.py:271-298` | An acknowledgement succeeds exactly for the worker and token of the claim while the lease is running, and dispatches the message; otherwise nothing changes. |
| `OutboxLeases.RetryLaw` | `backend/poker_coach/persistence/hand_event_store.py:300-342` | A retry with an error and a delay succeeds exactly for that holder; the message is pending again, due after the delay, with at most 512 characters of the error. |
| `OutboxLeases.AppendLaw` | `backend/poker_coach/persistence/hand_event_store.py:83-195` | On every reachable store an append succeeds exactly for a batch that continues the hand's numbering, with intents for its own events, and whose event ids, message ids and keys are new. |
| `OutboxLeases.LeaseIsExclusive` | `backend/poker_coach/persistence/hand_event_store.py:211-342` | In every run: from a grant on, as long as the message is neither acknowledged nor retried and no claim has a clock at or past the lease, the row stays exactly as granted and no claim grants it again. |
| `EventLogRuns.OnlyLastTokenSettles` | `backend/poker_coach/persistence/hand_event_store.py:271-342` | Acknowledgements and retries succeed only with the most recently granted token, on a message not yet acknowledged. |
| `EventLogRuns.DispatchedIsFinal` | `backend/poker_coach/persistence/hand_event_store.py:211-342` | A dispatched message never changes again. |
| `EventLog.HandEventStore.Append` | `backend/poker_coach/persistence/hand_event_store.py:83-195` | The row-by-row inserts with rollback are the atomic step, with every error in its order. |
| `EventLog.HandEventStore.InsertEvents` | `backend/poker_coach/persistence/hand_event_store.py:120-165` | Inserting the rows one by one fails exactly when an event id is already logged. |
| `EventLog.HandEventStore.Claim` | `backend/poker_coach/persistence/hand_event_store.py:211-261` | Releasing expired leases, selecting and granting are one atomic step. |
| `EventLog.HandEventStore.MarkDispatched` | `backend/poker_coach/persistence/hand_event_store.py:271-298` | The acknowledgement step. |
| `EventLog.HandEventStore.Retry` | `backend/poker_coach/persistence/hand_event_store.py:300-342` | The retry step, with the error text cut to 512 characters. |
| `EventLog.FreshSequence` | `backend/poker_coach/simulator/event_store.py:108-143` | A validated batch never meets a taken sequence, so only event ids can clash. |
| `RedisQueue.RunKeepsInvariant` | `backend/poker_coach/jobs/redis_queue.py:58-157` | The places of every id, the counter, the hashes and the cancel flags stay consistent in every interleaving of single commands. |
| `RedisQueue.StartedAtMostOnce` | `backend/poker_coach/jobs/redis_queue.py:117-140` | Under every interleaving each job is started at most once. |
| `RedisQueue.RunningIsExact` | `backend/poker_coach/jobs/redis_queue.py:117-157` | The running counter is the number of workers between INCR and DECR. |
| `RedisQueue.CancelledNeverStarts` | `backend/poker_coach/jobs/redis_queue.py:96-140` | A job whose cancel flag is set before a claimer's HGETALL commits to it is never started. |
| `RedisQueue.CancelledOnlyOnRequest` | `backend/poker_coach/jobs/worker.py:49-97` | A worker settles a job as cancelled only when its cancel flag was set. |
| `RedisQueue.RedisJobQueue.Submit` | `backend/poker_coach/jobs/redis_queue.py:58-78` | HSET then LPUSH, equal to the two commands run alone. |
| `RedisQueue.RedisJobQueue.Cancel` | `backend/poker_coach/jobs/redis_queue.py:96-111` | The flag, the list removal and the status for every previous status; nothing else changes. |
| `RedisQueue.RedisJobQueue.ClaimNext` | `backend/poker_coach/jobs/redis_queue.py:117-140` | A claim pops the oldest id and starts it exactly when it is known and not cancelled. |
| `RedisQueue.RedisJobQueue.Finish` | `backend/poker_coach/jobs/redis_queue.py:142-157` | The status and error text of every ending, the result and the counter, equal to the commands run alone. |
| `RedisQueue.RedisJobQueue.PendingCount` | `backend/poker_coach/jobs/redis_queue.py:159-164` | Queued plus running. |
| `RedisOutcomes.StatusTellsTheEnding` | `backend/poker_coach/jobs/worker.py:49-85` | In every interleaving: a completed job has an analysis of it that finished, a timed-out or failed one has one that ended so with the stored error text, a cancelled one has its cancel flag set, and a stored result is that of an analysis of the same job. |
| `RedisOutcomes.OutcomeIsWritten` | `backend/poker_coach/jobs/worker.py:64-85` | Each way an analysis can end writes its own status and error text, and only a finished one goes on to store a result. |
| `Sessions.RecoveriesConverge` | `backend/poker_coach/persistence/session_store.py:161-182` | Any number of sequential or concurrent recoveries, with no other writer, end in the same successor with one revision bump, and every finished one answers with it. |
| `Sessions.NoStaleChange` | `backend/poker_coach/persistence/session_store.py:95-182` | In every run of saves and recoveries by any clients, a content change succeeds only if its expected revision is not below any revision seen before, and the row has not changed since the moment that had it. |
| `Sessions.RevisionCountsChanges` | `backend/poker_coach/persistence/session_store.py:95-182` | In every run the revision is the number of content changes, and the i-th change was made from revision i. |
| `Sessions.RevisionNeverFalls` | `backend/poker_coach/persistence/session_store.py:95-182` | The revision never falls, and while it stays the same so does the row. |
| `Sessions.RacingChanges` | `backend/poker_coach/persistence/session_store.py:95-182` | Of the content changes from one expected revision, by saves or recoveries, at most one succeeds in any run. |
| `Sessions.RecoveryBesideWriters` | `backend/poker_coach/persistence/session_store.py:161-182` | While its loaded row is still stored, a recovery saves the successor with one bump; when another writer has intervened it changes nothing and answers the stored successor or a conflict. |
| `Sessions.AloneIsProcess` | `backend/poker_coach/persistence/session_store.py:161-182` | The transactions of one undisturbed recovery give the answer of the whole call. |
| `Sessions.CompletionConserves` | `backend/poker_coach/simulator/session.py:245-329` | Completing a hand clears it, records it, keeps the session valid, and adds no chips except the recorded rebuys. |
| `Sessions.CompletionLaw` | `backend/poker_coach/simulator/session.py:245-345` | A hand of a valid session can be completed exactly when it is the active one, the stacks name its seats and keep its chips, and no broke seat already has a rebuy for the next hand; then every seat has its ending stack or 10000 chips instead of fewer than 100, the button goes to the next seat that is not sitting out, and exactly the broke seats get a rebuy entry. |
| `Sessions.GameSessionStore.Save` | `backend/poker_coach/persistence/session_store.py:95-159` | The save step on its row; other sessions stay. |
| `Sessions.GameSessionStore.Recover` | `backend/poker_coach/persistence/session_store.py:161-182` | What an undisturbed recovery answers and stores. |
| `Projections.ProjectionIsFold` | `backend/poker_coach/persistence/projection_store.py:104-221` | Under duplicated, reordered and stale deliveries and discards, snapshot and checkpoint carry the same sequence and event id, and the snapshot is the fold of events 1 to checkpoint. |
| `Projections.DeliveryExtends` | `backend/poker_coach/persistence/projection_store.py:104-200` | An accepted delivery extends the fold by exactly its event. |
| `Projections.ProjectionStore.Apply` | `backend/poker_coach/persistence/projection_store.py:104-200` | The atomic compare-and-write of both rows; other keys stay. |
| `Projections.ProjectionStore.Discard` | `backend/poker_coach/persistence/projection_store.py:202-221` | Both rows of the key go, and nothing else. |
| `Projections.RunProjection` | `backend/poker_coach/simulator/recovery.py:289-335` | A run from a sound position ends at the end of the log with the fold of the whole log; disagreeing rows ask for a rebuild and are left alone. |
| `SessionStats.SessionStatsStore.ApplyHand` | `backend/poker_coach/persistence/session_stats_store.py:55-86` | One delivery on the session's rows; an applied hand changes nothing, a contribution of another session is refused, other sessions stay. |
| `SessionStats.SessionStatsStore.Discard` | `backend/poker_coach/persistence/session_stats_store.py:88-97` | A discard forgets the totals and the applied hands of the session only. |
| `SessionStats.Merge` | `backend/poker_coach/persistence/session_stats_store.py:55-86` | Merging adds every counter of every seat. |
| `SessionStats.TotalsAreSum` | `backend/poker_coach/persistence/session_stats_store.py:55-97` | After any deliveries and discards, repeated and in any order, the applied hands are those delivered since the last discard and every total is the sum over them, each with its first contribution. |
| `SessionStats.FirstsAreFirst` | `backend/poker_coach/persistence/session_stats_store.py:66-70` | Which contribution counts for a hand: that of its first delivery since the last discard. |
| `SessionStats.OrderDoesNotMatterIff` | `backend/poker_coach/persistence/session_stats_store.py:55-97` | For given deliveries, all runs that deliver them since their last discard have equal totals if and only if the deliveries of one hand carry the same counters. |
| `SessionStats.AgreeingHandsCommute` | `backend/poker_coach/persistence/session_stats_store.py:55-97` | The one half, for any two runs. |
| `SessionStats.DifferingHandsInterfere` | `backend/poker_coach/persistence/session_stats_store.py:66-70` | The other half: two runs with the same deliveries and different totals. |
| `SessionStats.FirstContributionStays` | `backend/poker_coach/persistence/session_stats_store.py:66-70` | A concrete pair of runs: one hand id with two contributions, in either order. |

## Left out

- Decimal and float rounding: all quantities are exact reals, so precision contexts and quantising are absent.
- Random generators and convergence: draws are arbitrary reals in [0, 1), runout choices arbitrary indices; no distribution over draws is modelled.
- Timeouts, cancellation events and time budgets inside the equity loops and the solver loop: they decide whether a value is returned, not which.
- `max_exact_operations` and the solver caps are parameters of the modelled calls.
- PostgreSQL adapters: they promise the contract of the SQLite stores; driver errors, connection handling and schema versions of both are absent.
- JSON texts: serialised rows are compared as the values they hold.
- Explanatory data of snapshots, candidates and beliefs: labels, assumptions, fallback reasons, provenance, snapshot ids and confidence texts.
- Combo keys as text: a combo is the pair of its cards in the order of the key, and card sets stand for card tuples where only membership matters.
- Message ids and job ids are integers: message ids stand for their order as texts, job ids for distinct generated ids.
- Standard errors are given by their squares; square roots are absent.
- `solve` as a whole, readiness checks, bet sizing, seeds, fingerprints and result assembly: the modelled parts are its sampling, equity, response, candidates and recommendation; the choices are any legal ones.
- `SizingDistance` on candidates without a size uses the constant of the source; labels and reasons of the recommendation are absent.
- Confidence radius: any non-negative real, instead of the square root of a logarithm.
- Policy providers, seat priors and position names: arbitrary functions; a policy's table is taken to be fixed by its fingerprint and node.
- Two memoised prior tables of the seat priors are one bounded cache here.
- Deal events that leave a seat without a combo, and actions of zero total mass, raise in the event-driven consumer; the model answers None there.
- Locks and threads of the belief caches: calls run one after another.
- Terminal status of a queued job: `cancel` reads and writes the status in separate commands, so no stability of the status is claimed.
- Worker loop: blocking pops, JSON decoding of scenarios, and the analysis itself, which ends with any outcome at any time.
- Session creation and hand starts: sessions are the input of completion, storage and recovery; the replayed ending of a hand is an arbitrary function of the hand.
- Rule engine replay, range notation parsing, board textures, teaching texts, bots, the HTTP interface and the frontend are not part of this model.
- EventLogRuns.RacingAppends: speaks of one run of calls in the order of their transactions, which is what the store's lock provides.
