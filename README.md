# A verified model of a contextual bandwidth controller

The controller allocates uplink bandwidth (a number of physical resource
blocks, PRBs) to the users of a simulated LTE/5G cell, one round at a time. Each
round it:

1. reads the context: the number of active users, their mean uplink MCS and
   the total uplink buffer backlog;
2. buckets the context;
3. picks a bandwidth arm, with UCB1, with a Monte-Carlo policy or with a
   value-iteration policy;
4. measures the packet delays and turns them into a QoS verdict (met or
   missed);
5. records the round in a trajectory;
6. at episode boundaries, re-estimates the policies from the rounds since the
   previous refresh.

This project models that core in Dafny, one module per component:

- `Parameters` (parameters.dfy): the PRB, MCS and buffer-size tables, context bucketing (`indexify_context`) and arm/bandwidth conversions.
- `Reward` (reward.dfy): the normalised RL reward of a round and its inverse, the QoS reward.
- `Stats` (stats.dfy): sums, means, maxima and first argmax used throughout.
- `Trajectory` (trajectory.dfy): the rows of the trajectory and how a window of rounds is read from them.
- `Policies` (policies.dfy): the most-used-arm policy, the epsilon-soft policy and its pmf.
- `MonteCarlo` (montecarlo.dfy): first-visit Monte-Carlo evaluation (`policy_iteration`).
- `Transitions` (transitions.dfy): the empirical transition counts and probabilities, with their synthetic extension (`update_transition_matrix`).
- `ValueIteration` (valueiteration.dfy): value iteration over the (MCS, buffer) grid and its greedy best-action map.
- `Bandit` (ucb1.dfy): the `UCB1` object: arm selection, single-arm updates and correlated updates.
- `Qos` (qos.dfy): `evaluate_qos`: per-user metrics, the worst one and the verdict.
- `Liveness` (liveness.dfy): which UEs are alive and connected, their IP addresses, and the context triple.
- `BsTree` (bstree.dfy): the binary search tree of transmitted packets, as a class over linked nodes.
- `AvlTree` (avltree.dfy): the AVL tree with rotations, on tree values.
- `E2eStats` (e2estats.dfy): packet identifiers from payload bytes (`list_to_hex`) and the delay/loss tally (`e2e_stats`).
- `LastBsr` (lastbsr.dfy): the last buffer-status report of each user within the last second (`last_bsr`).
- `LogFlatten` (logflatten.dfy): the binary searches over log files and intervals, and the line filters of the log flattener.
- `Amarify` (amarify.dfy): the grouping of UE lifecycles, cycle augmentation and UE configuration of the scenario generator.
- `Controller` (controller.dfy): the main loop: per-bucket round counting, episodes, dispatch, UCB bookkeeping and refreshes.
- `Wrappers` (wrappers.dfy): `Option`.

Randomness enters only as parameters: the draw from a pmf is a function
`choose` handed to the round, the UCB exploration bonus is a function `bonus`,
and the percentile of a delay list is a function `tail`. Rewards,
probabilities and delays are `real`s. Time stamps are ordered integers.

The Monte-Carlo padding counts the absolute row index of a pair's first visit
in the trajectory file, not its position within the episode:
`MonteCarlo.ReturnOf` pads with that row index, as util/RL.py:106-138 does.

## Model

| member | source | states |
|---|---|---|
| Parameters.BucketIndex | util/parameters.py:16-29 | the bucket of a value is a valid index; every earlier threshold is below the value, and the value does not exceed its own threshold unless it fell through to the last bucket |
| Parameters.IndexifyContext | util/parameters.py:16-29 | the nested loops give, for each component, exactly its bucket under its own threshold list |
| Parameters.BucketIndexIsFirst | util/parameters.py:21-27 | the first threshold not exceeded, or the last one after all are exceeded, is the only possible bucket |
| Parameters.ContextOf | util/parameters.py:41-55 | the bucketed context of raw users, MCS and buffer values lies on the 3 x 4 x 4 grid |
| Parameters.ContextOfIsIndexify | util/parameters.py:16-55 | the written-out thresholds agree with bucketing against `Users`, `MCSs` and `BSRs` |
| Parameters.BucketIndexMonotone | util/parameters.py:23-26 | a larger component value never falls into an earlier bucket |
| Parameters.UsersBucketExamples | util/parameters.py:41-45 | 5 and 7 users share the bucket of 6; 2 and 3 users fall into the first and the second bucket |
| Parameters.IndexOf | util/parameters.py:12 | `list.index`: the first position holding the value, or none when the value is absent |
| Parameters.IndexifyBandwidth | util/parameters.py:11-13 | a bandwidth has an arm exactly when it is one of the PRB values, and that arm allocates it |
| Parameters.UnindexifyBandwidth | util/parameters.py:6-8 | Python list indexing: defined exactly for -4..3, always a PRB value, `PRBs[arm]` for a non-negative arm |
| Parameters.UnindexifyIndexify | util/parameters.py:6-13 | the arm of an arm's bandwidth is that arm |
| Parameters.IndexifyUnindexify | util/parameters.py:6-13 | the bandwidth of a PRB value's arm is that value |
| Parameters.NegativeArms | util/parameters.py:6-8 | arm -1 gives 90 PRBs, -4 gives 20, and -5 and 4 raise `IndexError` |
| Parameters.CostOfViolation | util/parameters.py:138-140 | the violation cost is the PRB range over `a`, i.e. 100 times the range (7000) |
| Parameters.PrbsShape | util/parameters.py:34-64 | one increasing PRB value per arm, three increasing threshold lists, a 64-entry buffer table |
| Reward.RlRewardFormula | util/RL.py:17-28 | the reward is the negated round cost (bandwidth plus the violation cost times one minus the QoS reward), shifted by the dearest cost and divided by the cost range |
| Reward.QosRewardFormula | util/RL.py:31-40 | the QoS reward undoes the normalisation and subtracts the bandwidth cost, over the violation cost |
| Reward.CostRange | util/RL.py:21-22 | the dearest round costs the largest allocation plus the violation cost, the cheapest the smallest allocation |
| Reward.QosRoundTrip | util/RL.py:17-40 | `compute_qos_reward` recovers the QoS reward `compute_rl_reward` was given, for every action |
| Reward.RlRoundTrip | util/RL.py:17-40 | `compute_rl_reward` recovers the reward `compute_qos_reward` was given, for every action |
| Reward.RlRewardRange | util/RL.py:17-28 | an allocation within the PRB range and a QoS reward in [0, 1] give a reward in [0, 1] |
| Reward.ArmRewardInUnit | util/RL.py:17-28 | every arm's reward for a QoS reward in [0, 1] lies in [0, 1] |
| Reward.RlRewardExtremes | util/RL.py:17-28 | the cheapest successful round scores 1 and the dearest failed round 0 |
| Reward.RlRewardDecreasing | util/RL.py:17-28 | at equal QoS, more bandwidth earns strictly less |
| Reward.SuccessBeatsFailure | util/RL.py:17-28 | any successful round on the PRB range earns more than any failed one |
| Reward.RewardOneOnlyAtCheapestSuccess | util/RL.py:17-28 | a round with a 0/1 verdict earns exactly 1 only on arm 0 with success, the case the extension step tests with `QoS_reward == 1` |
| Reward.GridRewardsDistinct | util/RL.py:333-338 | different (arm, verdict) pairs earn different rewards, so a transition key's reward identifies its arm and verdict |
| Trajectory.ArmOf | util/RL.py:56-57 | the arm of a row allocates the row's bandwidth |
| Trajectory.ArmOfIsIndexify | util/RL.py:108-110 | the arm of a row is what `indexify_bandwidth` returns for its bandwidth |
| Trajectory.Visits | util/RL.py:52-55 | one visit per window round, read from the row before it (rounds are 1-based) |
| Trajectory.ReadVisit | util/RL.py:101-112 | reading one window round gives its visit, from the row `round - 1` |
| Trajectory.ReadVisits | util/RL.py:101-112 | the loop over the window reads exactly the visits of the window |
| Trajectory.RewardOfInUnit | util/RL.py:123 | a row with a PRB bandwidth and a 0/1 verdict earns a reward in [0, 1] |
| Trajectory.VisitRewardsInUnit | util/RL.py:120-126 | every reward an episode's visits earn lies in [0, 1] |
| Policies.EpsilonSoftPolicySelect | util/RL.py:381-390 | the pmf has one entry per arm: the high probability on the recommended arm, the low one elsewhere |
| Policies.EpsilonSoftIsDistribution | util/RL.py:383-387 | the epsilon-soft pmf sums to 1, gives every arm a positive probability and the recommended arm strictly the most |
| Policies.Mode | util/RL.py:72 | `statistics.mode`: an element of the list that no element outnumbers; among equally frequent ones, the first to appear |
| Policies.ArmsOfNonEmpty | util/RL.py:55-67 | a context has played arms exactly when some window round was in it |
| Policies.GroupArmsByContext | util/RL.py:55-67 | the loop maps exactly the contexts that occur to the arms played in them, in window order |
| Policies.FindMostUsedArm | util/RL.py:45-74 | every context seen in the window, and only those, maps to the mode of the arms played in it |
| Policies.MostUsedArmIsMostFrequent | util/RL.py:69-73 | no arm was played in a context more often than its most-used arm |
| Policies.SecondPolicy | util/RL.py:78-92 | the second policy's pmf sums to 1 and favours the context's most-used arm, or arm 0 for an unseen context |
| Policies.ArmsWithEntries | util/RL.py:142-149 | the loop lists, in increasing order, exactly the arms with a Q entry for the state, with their Q values |
| Policies.EpsilonSoftPolicy | util/RL.py:141-172 | recommends the smallest arm of largest Q value among those with an entry, arm 0 when none has one, and draws from its epsilon-soft pmf |
| MonteCarlo.FirstTimes | util/RL.py:106-114 | every state-action pair visited in the episode has a first time |
| MonteCarlo.FirstTimesIsFirstVisit | util/RL.py:106-114 | the recorded time of a pair is the row of its first visit in the episode, and no earlier visit has that pair |
| MonteCarlo.ComputeFirstTimes | util/RL.py:106-114 | the loop records, for each pair, the row of its first visit |
| MonteCarlo.DiscountRewards | util/RL.py:117-126 | the loop over the rounds from the first visit on counts them and accumulates their discounted and their plain reward sums |
| MonteCarlo.PadReturn | util/RL.py:129-133 | the padding loop adds the mean reward discounted at each further step, once per row before the first visit |
| MonteCarlo.ComputeReturn | util/RL.py:116-133 | the return of a pair is its discounted reward sum from the first visit plus the padding |
| MonteCarlo.PolicyIteration | util/RL.py:95-138 | every pair visited in the episode gets its return appended and its Q value set to the mean of its returns; every other pair keeps its Q value and returns |
| MonteCarlo.EvaluateVisits | util/RL.py:116-136 | the loop over the first-visit keys evaluates each of them and leaves every other key alone |
| MonteCarlo.EvaluateStep | util/RL.py:135-136 | one key's update evaluates that key and keeps every other key's state |
| MonteCarlo.DiscountedBounds | util/RL.py:123-124 | rewards in [0, 1] give a discounted sum between 0 and their count |
| MonteCarlo.PaddingBounds | util/RL.py:131-133 | a mean in [0, 1] gives a padding between 0 and the number of padded steps |
| MonteCarlo.ReturnBounds | util/RL.py:116-133 | a return is non-negative and at most the number of steps it sums |
| ValueIteration.Candidates | util/RL.py:326-345 | one candidate value per arm, the expected one-step lookahead of that arm |
| ValueIteration.GridStates | util/RL.py:322-324 | the sweep visits one state per (MCS, buffer) bucket pair |
| ValueIteration.GridStatesOnGrid | util/RL.py:322-324 | every swept state lies on the MCS x buffer grid |
| ValueIteration.IterateSnoc | util/RL.py:319-347 | the state values after n + 1 sweeps are one sweep on the values after n |
| ValueIteration.LookaheadBounds | util/RL.py:329-344 | with stochastic transition rows and values in [0, 100], an arm's lookahead lies in [0, 100] |
| ValueIteration.CandidatesBounds | util/RL.py:326-345 | every candidate value lies in [0, 100] under the same conditions |
| ValueIteration.SweepOverBounded | util/RL.py:322-347 | a sweep keeps every state value in [0, 100] |
| ValueIteration.IterateBounded | util/RL.py:314-347 | the values stay in [0, 100] after any number of sweeps from the zero table |
| ValueIteration.ComputeLookahead | util/RL.py:330-344 | the inner loops sum exactly the arm's lookahead terms |
| ValueIteration.SumTerms | util/RL.py:331-344 | the loop over outcomes sums their probability-weighted terms |
| ValueIteration.ComputeCandidates | util/RL.py:326-345 | the loop over arms builds exactly the candidate list |
| ValueIteration.SweepStates | util/RL.py:320-347 | one pass over the grid gives the swept values and the largest deviation |
| ValueIteration.SweepList | util/RL.py:322-347 | the loop over states sets each to its best candidate, in grid order, and tracks the largest change |
| ValueIteration.UpdateState | util/RL.py:325-347 | one state's update takes the best candidate and raises the deviation to its change |
| ValueIteration.SweepOverSnoc | util/RL.py:346-347 | sweeping one more state sets it to its best candidate and folds its change into the deviation |
| ValueIteration.NextSweep | util/RL.py:319-347 | one more sweep yields the next iterate and its deviation |
| ValueIteration.RunSweeps | util/RL.py:316-347 | the values are the iterates from the zero table, and the sweeps stop at the first one whose largest change is at most `theta` (0.5): every earlier sweep changed some value by more than `theta` |
| ValueIteration.GreedyPolicy | util/RL.py:349-378 | every grid state, and only those, maps to the first arm of largest candidate value |
| ValueIteration.RunValueIteration | util/RL.py:314-378 | the values are those of the first sweep whose largest change is at most `theta`, the policy maps every grid state to the first arm of largest lookahead under them, and the values stay in [0, 100] for stochastic transitions |
| ValueIteration.GridRewardInUnit | util/RL.py:333-336 | every reward on the outcome grid lies in [0, 1] |
| Transitions.Add | util/RL.py:205 | a default-dictionary increment: the key gains `c`, every other key keeps its count |
| Transitions.Transition | util/RL.py:187-204 | the transition read from a round lies on the MCS x buffer grid |
| Transitions.Transitions | util/RL.py:185 | one transition per window round but the last, each read from that round's row and the next |
| Transitions.CountedGet | util/RL.py:185-205 | after counting, every transition's count grows by the number of times it occurs in the window |
| Transitions.CountedOnGrid | util/RL.py:185-205 | counting keeps every counted state-action pair on the grid |
| Transitions.ReadTransition | util/RL.py:187-204 | reading one round gives its transition |
| Transitions.ReadTransitions | util/RL.py:185-204 | the loop reads exactly the window's transitions |
| Transitions.CountTransitions | util/RL.py:185-205 | the counting loop adds each window transition once to the persistent counts |
| Transitions.CountAll | util/RL.py:185-205 | the loop over transitions adds each once |
| Transitions.SuccessOfObserved | util/RL.py:213-220 | recovering the QoS reward from a key's RL reward finds success exactly when the observed QoS was 1 |
| Transitions.Targets | util/RL.py:220-253 | a success extends to every larger arm, a failure to every smaller arm, one fake key per arm |
| Transitions.TargetsShape | util/RL.py:220-253 | a fake key keeps the state and next MCS; on success its next buffer is one lower (not below 0) and its reward that of its arm succeeding; on failure one higher (not beyond the last bucket) and that of its arm failing |
| Transitions.AddAllGet | util/RL.py:219-253 | adding the current count to each fake key raises each key by the count times its occurrences |
| Transitions.ExtendAllSnoc | util/RL.py:209-253 | extending by one more observed key adds its count to each of its fake keys |
| Transitions.ExtendAllGet | util/RL.py:207-253 | the extended count of a key is its observed count plus what the observed keys contribute |
| Transitions.ExtendAllGrows | util/RL.py:207-253 | the extension never lowers a count |
| Transitions.ExtendAllOnGrid | util/RL.py:207-253 | the extension keeps every state-action pair on the grid |
| Transitions.AddTargets | util/RL.py:219-253 | one observed key's extension adds its count to exactly its fake keys |
| Transitions.AddLargerArms | util/RL.py:220-236 | the success loop adds the count to the fake keys of every larger arm |
| Transitions.AddSmallerArms | util/RL.py:237-253 | the failure loop adds the count to the fake keys of every smaller arm |
| Transitions.ExtendCounts | util/RL.py:207-253 | the extension iterates over every observed key once and starts from a copy of the counts |
| Transitions.GridSAs | util/RL.py:262-265 | the fill loops visit 64 state-action pairs (4 MCS buckets, 4 buffer buckets, 4 arms), all on the grid |
| Transitions.GridSAsComplete | util/RL.py:262-265 | every grid pair is visited, at position 16 MCS + 4 buffer + arm |
| Transitions.GridSAsDistinct | util/RL.py:262-265 | no grid pair is visited twice |
| Transitions.FillRowsGrows | util/RL.py:262-274 | filling never lowers a count |
| Transitions.FillRowsOtherRows | util/RL.py:262-274 | filling leaves rows outside the visited pairs alone |
| Transitions.FillRowsKeys | util/RL.py:262-274 | every key after filling was there before or is a visited pair's optimistic key |
| Transitions.FillRowsNonEmpty | util/RL.py:262-274 | after filling every visited row has a positive total |
| Transitions.FillRowsGet | util/RL.py:262-274 | filling adds exactly 1 to the optimistic key (same MCS, buffer 0, success reward) of every empty row and nothing else |
| Transitions.FillEmptyRows | util/RL.py:262-274 | the fill loops fill exactly the empty grid rows |
| Transitions.Normalise | util/RL.py:277-280 | the probability table has the same keys as the counts and non-negative entries |
| Transitions.NormaliseRow | util/RL.py:276-280 | every row with a positive total sums to 1 after normalisation |
| Transitions.NormaliseGet | util/RL.py:280 | each probability is its count over its row's total |
| Transitions.NormaliseEntry | util/RL.py:280 | each probability of an outcome on the grid lies in [0, 1] |
| Transitions.FilledRowsNonEmpty | util/RL.py:255-274 | after filling, every grid row has a positive total, so the division is defined |
| Transitions.UpdateTransitionMatrix | util/RL.py:175-311 | the counts gain the window's transitions, and the returned matrix is the normalised, extended and filled counts, every grid row of which sums to 1 |
| Qos.Verdict | calculate_reward.py:124 | the verdict is 1 exactly when the metric meets the target, 0 otherwise |
| Qos.EvaluateQos | calculate_reward.py:98-125 | no delay lists gives the no-response metric and verdict 0; otherwise the metric is the largest per-user metric and the verdict is its test against the target |
| Qos.SliceMetricUnique | calculate_reward.py:98-125 | the delay lists determine the slice metric: no two different metrics both qualify |
| Qos.UserMetrics | calculate_reward.py:105-120 | the loop computes each user's metric: the mean or the 90th percentile, or the no-response metric for a silent user |
| Qos.VerdictIsForAllUsers | calculate_reward.py:122-124 | the round succeeds exactly when every user meets the target |
| Qos.SilentUserFailsRound | calculate_reward.py:117-124 | a user with no replies fails the round |
| Qos.AverageMetricBounds | calculate_reward.py:111-113 | the average metric lies between the smallest and largest delay bound |
| Bandit.FirstZero | util/ucb1.py:23-28 | the first never-updated arm, if any |
| Bandit.UcbIndices | util/ucb1.py:21-32 | one index per arm, its average plus its exploration bonus |
| Bandit.ArmToSelect | util/ucb1.py:20-39 | the first arm with no updates if there is one; otherwise the first arm of largest UCB index |
| Bandit.SuccessPropagationOnlyFromArmZero | util/ucb1.py:60-76 | the success test `reward == 1` passes only when arm 0 succeeded, so success spreads to larger arms only from arm 0 |
| Bandit.FailureUpdatesSmallerArms | util/ucb1.py:64-70 | with correlations, a failure updates the selected arm and every smaller one |
| Bandit.SuccessUpdates | util/ucb1.py:64-76 | with correlations, a success on arm 0 updates every arm and a success elsewhere only the selected arm |
| Bandit.UCB1.constructor | util/ucb1.py:8-18 | no iterations, and zero counts, averages and selection counts for every arm |
| Bandit.UCB1.SelectArm | util/ucb1.py:20-39 | returns the arm to select and counts the selection, changing nothing else |
| Bandit.UCB1.ChooseArm | util/ucb1.py:20-37 | the scan returns the first arm never updated, otherwise the first arm of largest UCB index |
| Bandit.UCB1.SingleArmUpdate | util/ucb1.py:47-54 | the arm's count grows by one and its average becomes the mean of all rewards it was fed, each of them in [0, 1] |
| Bandit.UCB1.AveragesInUnit | util/ucb1.py:47-54 | every arm's running mean stays in [0, 1] |
| Bandit.UCB1.Update | util/ucb1.py:56-79 | feeds each arm the test selects its reward for this round, which lies in [0, 1], keeps counts and averages consistent, and counts one iteration |
| Bandit.UCB1.UpdateSmallerArms | util/ucb1.py:64-70 | a failure feeds every smaller arm its failure reward and leaves `reward` at the last one fed |
| Bandit.UCB1.UpdateLargerArms | util/ucb1.py:72-76 | feeds every larger arm its reward |
| Bandit.FirstMax | util/ucb1.py:34-35 | `index(max(...))`: the first position of the largest value |
| Bandit.ArgmaxFirstUnique | util/ucb1.py:34-35 | a position no value exceeds and all earlier values fall short of is the first maximum |
| Stats.MeanAppend | util/ucb1.py:53 | the running-mean update gives the mean of the extended list |
| Stats.MeanBounds | util/RL.py:136 | a mean of values in a range lies in that range |
| Stats.ArgmaxFirst | util/RL.py:375 | `index(max(...))`: no value exceeds the one at the index, and every earlier value is smaller |
| Stats.MaxOfIsMax | util/RL.py:346 | `max(...)` is one of the values and no value exceeds it |
| Liveness.FirstNot | util/liveness.py:146-159 | the position of the first UE whose processing raises `KeyError`: every earlier UE passes, that one fails |
| Liveness.Infos | util/liveness.py:147-152 | one `(ue_id, rrc_state, cells_cqi)` triple per processed UE |
| Liveness.McsOf | util/liveness.py:157-159 | one `(dl_mcs, ul_mcs)` pair per processed UE |
| Liveness.AliveCount | util/liveness.py:153-155 | the number of processed UEs not powered off, at most their number |
| Liveness.ConnectedIds | util/liveness.py:162 | the identifiers of the connected UEs, at most one per UE |
| Liveness.Liveness | util/liveness.py:128-170 | no output, no JSON, bad JSON or no `ue_list` gives four empty results; otherwise the results cover the UEs before the first `KeyError` (the failing UE's triple kept when it was appended before the error), and the active users are computed only when no UE failed |
| Liveness.CollectCqis | util/liveness.py:147-150 | the CQI list is read exactly when every cell has a `cqi`, and then holds each cell's CQI in order |
| Liveness.ConnectedIdsAppend | util/liveness.py:162 | the active-user filter distributes over concatenation |
| Liveness.ConnectedIdsMembers | util/liveness.py:162 | an identifier is active exactly when some UE with it is connected |
| Liveness.AliveCountAllPoweredOff | util/liveness.py:153-155 | with every UE powered off, no UE is alive |
| Liveness.AliveCountNonePoweredOff | util/liveness.py:153-155 | with no UE powered off, every UE is alive |
| Liveness.ConnectedIps | util/liveness.py:189-191 | one address per connected UE, at most one per UE |
| Liveness.UeIpAddresses | util/liveness.py:173-199 | no usable report gives no addresses; otherwise the addresses of the connected UEs before the first `KeyError`, and an empty `pdn_list` raises `IndexError` |
| Liveness.ConnectedIpsCount | util/liveness.py:189-191 | there are exactly as many addresses as connected UEs |
| Liveness.UlMcsValues | util/liveness.py:14 | the uplink MCS values present, at most one per UE |
| Liveness.UlMcsValuesMembers | util/liveness.py:14 | every uplink value kept is one of the reported ones in range |
| Liveness.AvgUlMcsInRange | util/liveness.py:13-19 | with reported MCS in [0, 28] the average, or the default 28, lies in [0, 28] |
| Liveness.NearestAmong | util/liveness.py:47 | `min(range(n), key=...)`: the first index of least distance |
| Liveness.SnapIndexBelowLast | util/liveness.py:41-47 | the summed backlog, being finite, never snaps to the last table entry |
| Liveness.ContextFrom | util/liveness.py:9-52 | the context is the number of active users, `AvgUlMcs` of the MCS pairs, and the table index nearest the summed uplink backlog, the first of equally near ones, never the last |
| BsTree.BSTree.constructor | util/e2estats.py:13-16 | a node with no children holding the given packet, or an empty tree |
| BsTree.BSTree.Insert | util/e2estats.py:18-36 | an empty root takes the packet; a packet whose identifier is already stored is dropped; otherwise the identifier maps to its time, and the tree stays a search tree |
| BsTree.BSTree.DescendLeft | util/e2estats.py:26-29 | a smaller identifier goes into the existing left subtree |
| BsTree.BSTree.AttachLeft | util/e2estats.py:26-31 | a smaller identifier with no left subtree becomes a new left leaf |
| BsTree.BSTree.DescendRight | util/e2estats.py:33-35 | a larger identifier goes into the existing right subtree |
| BsTree.BSTree.AttachRight | util/e2estats.py:33-36 | a larger identifier with no right subtree becomes a new right leaf |
| BsTree.BSTree.Find | util/e2estats.py:38-52 | the node holding the identifier when it is stored, `False` when it is not, `None` exactly for an empty tree |
| BsTree.FirstWinsIsFirst | util/e2estats.py:23-24 | an identifier is stored exactly when some packet carries it, and then with the time of the first such packet |
| BsTree.BuildTree | util/e2estats.py:280-286 | the tree built from a cluster stores each identifier with its first packet's time, and the count is the cluster's size |
| BsTree.InsertThenFind | util/e2estats.py:18-52 | a packet just inserted is found, with its own time when its identifier was new |
| AvlTree.RightRotate | util/e2estats.py:110-120 | a right rotation keeps the in-order sequence and the packets, and recomputes the heights |
| AvlTree.LeftRotate | util/e2estats.py:122-132 | a left rotation keeps the in-order sequence and the packets, and recomputes the heights |
| AvlTree.RightRotateOrdered | util/e2estats.py:110-120 | a right rotation keeps a search tree a search tree, and its key bounds |
| AvlTree.LeftRotateOrdered | util/e2estats.py:122-132 | a left rotation keeps a search tree a search tree, and its key bounds |
| AvlTree.InsertInto | util/e2estats.py:68-98 | inserting into an empty subtree gives a leaf of height 1; `None` stands for the `AttributeError` of a rotation case whose child is missing |
| AvlTree.Refresh | util/e2estats.py:77 | the node's height becomes one more than its taller child's |
| AvlTree.Rebalance | util/e2estats.py:78-98 | each of the four rotation cases keeps the in-order sequence and the packets |
| AvlTree.LeftRightCase | util/e2estats.py:88-91 | the double rotation keeps heights consistent, the search order and the key bounds |
| AvlTree.RightLeftCase | util/e2estats.py:93-96 | the double rotation keeps heights consistent, the search order and the key bounds |
| AvlTree.RebalanceKeeps | util/e2estats.py:78-98 | rebalancing keeps heights consistent and the search order |
| AvlTree.RebalanceBounds | util/e2estats.py:78-98 | rebalancing keeps the key bounds of a subtree |
| AvlTree.InsertAtMost | util/e2estats.py:68-98 | inserting a key at most k into a subtree with keys at most k keeps that bound |
| AvlTree.InsertAtLeast | util/e2estats.py:68-98 | inserting a key at least k into a subtree with keys at least k keeps that bound |
| AvlTree.InsertElems | util/e2estats.py:68-98 | a successful insertion adds exactly the packet, duplicates included |
| AvlTree.InsertKeeps | util/e2estats.py:68-98 | a successful insertion keeps heights consistent and the search order |
| AvlTree.FindIn | util/e2estats.py:137-145 | a node found holds a packet with the key, stored in the tree |
| AvlTree.FindComplete | util/e2estats.py:137-145 | in a search tree every stored packet's key is found |
| AvlTree.FindsStoredKey | util/e2estats.py:137-145 | in a search tree a key is found whenever some stored packet has it |
| AvlTree.DuplicateKeyEndsOnTheLeft | util/e2estats.py:72-75 | equal keys go right on insertion but a rotation can move one to the left, so search order here allows equal keys on both sides |
| AvlTree.AVLTree.constructor | util/e2estats.py:62-63 | the tree starts empty |
| AvlTree.AVLTree.Insert | util/e2estats.py:65-66 | the root becomes the insertion's result with the packet added, unless a rotation case raises, and heights and search order are kept |
| AvlTree.AVLTree.Find | util/e2estats.py:134-135 | a node found holds the key, and in a search tree every stored key is found |
| E2eStats.ListToHex | util/e2estats.py:147-153 | fails exactly when some byte is not hex; otherwise the bytes read as one big-endian number |
| E2eStats.WeightedSumIsBigEndian | util/e2estats.py:151-152 | the sum of `int(b, 16) * 16 ** (2 * (n - i - 1))` over the first bytes is their big-endian value scaled by the remaining bytes |
| E2eStats.TwoDigitByte | util/e2estats.py:152 | a two-digit hex string is a byte |
| E2eStats.BigEndianRoundTrip | util/e2estats.py:147-153 | the byte values can be recovered from the identifier |
| E2eStats.BigEndianBound | util/e2estats.py:147-153 | the identifier of n bytes is below 256 to the n |
| E2eStats.IdentifierInjective | util/e2estats.py:147-153 | packets with equal-length, different payloads get different identifiers |
| E2eStats.Delays | util/e2estats.py:342-355 | one delay per received packet: receive time minus send time when matched, `max_delay` otherwise |
| E2eStats.E2eStatsOf | util/e2estats.py:337-358 | a received list longer than the sent trees raises `IndexError`; otherwise the lost count and the delays of the received packets |
| E2eStats.LostCountRange | util/e2estats.py:340-355 | the lost count is at most the number received, 0 exactly when all are matched, all exactly when none is |
| E2eStats.MatchedDelay | util/e2estats.py:346-355 | an unmatched packet gets `max_delay`, a matched one its delay from the first sent packet with its identifier |
| E2eStats.AllLostFailsQos | util/e2estats.py:352-355 | when every packet is lost the average delay is `max_delay` and the round fails |
| LastBsr.SetSlot | util/e2estats.py:413-414 | a slot takes the value; the other direction is unchanged |
| LastBsr.Position | util/e2estats.py:401 | `list.index`: the first position of the identifier, or the `ValueError` when it is absent |
| LastBsr.Defaults | util/e2estats.py:421 | every unreported slot becomes 0, every reported one keeps its value |
| LastBsr.WindowEnd | util/e2estats.py:383-393 | the scan stops at the first line the window test rejects, and considers every earlier line |
| LastBsr.ScanBsr | util/e2estats.py:369-422 | the table holds, for each slot, the first value reported within the window, and stopping once full changes nothing |
| LastBsr.LastBsrAsWritten | util/e2estats.py:369-422 | one (direction, value) pair per active user: the first report for that user among the lines before the first one the as-written test (`current - first > 1` s) rejects, 0 for an unreported direction |
| LastBsr.LastBsrOf | util/e2estats.py:369-422 | one (direction, value) pair per active user: the first report for that user among the lines within one second of the newest, 0 for an unreported direction |
| LastBsr.FullStaysFull | util/e2estats.py:416-417 | once every slot is filled, further lines change nothing, so the early stop is sound |
| LastBsr.FillIsFirstReport | util/e2estats.py:412-414 | every slot holds the first value reported for it |
| LastBsr.AsWrittenWindowIsEverything | util/e2estats.py:387-393 | as written, a newest-first scan never stops at the window |
| LastBsr.IntendedWindowIsLastSecond | util/e2estats.py:387-393 | corrected, the scan considers exactly the lines within one second of the newest |
| LastBsr.StaleReportCounterexample | util/e2estats.py:387-393 | a report four seconds old fills a slot as written and is ignored once corrected |
| LogFlatten.MsToSecondsCeil | util/logflatten.py:216-217 | the least whole number of seconds covering the milliseconds |
| LogFlatten.ExtractTimestamp | util/logflatten.py:225-234 | a timestamp exactly for lines starting with a clock stamp, the file date and the clock to the second |
| LogFlatten.ClockRoundTrip | util/logflatten.py:225-234 | a line stamped with a clock and milliseconds gives back that clock |
| LogFlatten.CountBelowSorted | util/logflatten.py:236-256 | on sorted times the number of times before the target is the split point |
| LogFlatten.FindLatestFileBefore | util/logflatten.py:236-256 | none exactly for no files; otherwise, on sorted files, the last file stamped before the target, or the first file when none is |
| LogFlatten.LatestIsLast | util/logflatten.py:250-254 | on sorted files, a file is before the target exactly when it precedes the split point |
| LogFlatten.CountBeforeSorted | util/logflatten.py:404-423 | on sorted disjoint intervals the number ending before the time is the split point |
| LogFlatten.FindIntervalIndex0 | util/logflatten.py:404-423 | a found index holds an interval containing the time; on sorted disjoint intervals one is found exactly when one contains the time, and otherwise the index is where the time would go |
| LogFlatten.FindIntervalIndices | util/logflatten.py:425-435 | the indices, increasing, of exactly the intervals containing the time |
| LogFlatten.OneContainingInterval | util/logflatten.py:404-423 | sorted disjoint intervals contain a time at most once |
| LogFlatten.IpHeaderCount | util/logflatten.py:764-770 | at most one IP header per line |
| LogFlatten.OtherHeaders | util/logflatten.py:771-775 | the MAC headers kept are headers that are not IP headers |
| LogFlatten.KeptLinesBlocked | util/logflatten.py:762-785 | the kept lines are IP headers each followed by its payload, cut after the allowed number of lines |
| LogFlatten.BlockedShape | util/logflatten.py:777-785 | kept lines start with an IP header and hold only IP headers and non-blank payload |
| LogFlatten.Windowed | util/logflatten.py:751-761 | the lines from the first in-window stamp on, at most all of them |
| LogFlatten.ExtractEntries | util/logflatten.py:699-787 | the loop returns the IP lines and MAC headers of the line-by-line filter |
| LogFlatten.EntryStepDescribes | util/logflatten.py:751-785 | each line keeps the filter state in step with the windowed lines |
| LogFlatten.EntriesSpec | util/logflatten.py:751-787 | the filter's result describes the windowed lines |
| LogFlatten.AppendStays | util/logflatten.py:752-760 | once appending starts it never stops |
| LogFlatten.EntriesKeepBlocks | util/logflatten.py:699-787 | the IP lines are headers with their cut payload, contain no comment, count every windowed IP header, and the MAC headers are exactly the other windowed headers |
| LogFlatten.KeptHeaders | util/logflatten.py:762-785 | cutting payloads keeps every IP header |
| LogFlatten.MmeStopped | util/logflatten.py:585-587 | once every sample is used, further lines change nothing |
| LogFlatten.ExtractMmeEntries | util/logflatten.py:532-633 | the loop returns the IP lines, sample times and index of the line-by-line sampler |
| LogFlatten.MmeStepAccepts | util/logflatten.py:588-607 | a line uses at most one sample, and records a time exactly when it is an IP header within the tolerance of the current sample |
| LogFlatten.MmeStepShaped | util/logflatten.py:585-631 | each line keeps one recorded time per accepted sample |
| LogFlatten.MmeHeaderShaped | util/logflatten.py:588-621 | a header keeps one recorded time per accepted sample |
| LogFlatten.MmeBodyShaped | util/logflatten.py:609-631 | a payload line keeps one recorded time per accepted sample |
| LogFlatten.MmeEntriesShape | util/logflatten.py:585-633 | the sampler records one time per accepted sample |
| LogFlatten.MmeIndexGrows | util/logflatten.py:585-607 | the sample index never goes back |
| Amarify.NotFitsExtends | amarify.py:208-214 | a run too long for the groups in a prefix is too long in the whole list |
| Amarify.GroupTuples | amarify.py:202-216 | raises `IndexError` exactly when some run of equal adjacent tuples is longer than `maxUsers`; otherwise `maxUsers` groups, group i holding the (i+1)-th copy of every run, in order |
| Amarify.TotalSizeGrows | amarify.py:214 | appending one tuple to one group adds one to the total size |
| Amarify.GroupingKeepsCount | amarify.py:204-214 | when every run fits, grouping keeps every tuple: the groups hold as many tuples as the list |
| Amarify.EmptyGroups | amarify.py:204-205 | an empty list gives `maxUsers` empty groups |
| Amarify.LifecycleIntervals | amarify.py:226-240 | the loop emits, segment by segment, `count` copies of the segment's interval, which starts where the last non-empty segment ended |
| Amarify.MaxCount | amarify.py:241 | `max(ue_counts)`: no count exceeds it and some count equals it |
| Amarify.UeLifecycleAlt | amarify.py:219-241 | no counts raise `ValueError`; otherwise the lifecycles grouped into `max(ue_counts)` lists, or the `IndexError` of grouping |
| Amarify.RunIndexOfCopies | amarify.py:209-213 | after a different tuple, the q-th copy of a tuple has run index q - 1 |
| Amarify.AppendRun | amarify.py:208-214 | a run of c copies, c at most the group count, fits and puts one copy into each of the first c groups |
| Amarify.LifecycleGroups | amarify.py:202-241 | with positive activity times the lifecycles always fit, and group i holds the interval of exactly the segments whose count exceeds i |
| Amarify.LifecycleGroupsUpTo | amarify.py:229-239 | the same, segment by segment, and the last interval ends at the current time |
| Amarify.AugmentCycles | amarify.py:369-373 | n start items (start, +1) followed by n end items (end, -1) |
| Amarify.AugmentRoundTrip | amarify.py:369-373 | the intervals can be recovered from the augmented list |
| Amarify.AugmentBalanced | amarify.py:369-373 | the contributions of the augmented list sum to 0, so the active count returns to zero |
| Amarify.NetAppend | amarify.py:369-373 | the contributions of two lists joined add up |
| Amarify.NetConstant | amarify.py:369-373 | n items contributing the same amount add up to n times it |
| Amarify.ProtoHandler | amarify.py:291-309 | only HTTP, RTP, UDP and VoIP are supported, RTP and UDP with channel simulation |
| Amarify.Decimal | amarify.py:129-130 | decimal rendering: at least one digit, all digits |
| Amarify.DecimalRoundTrip | amarify.py:129-130 | reading a rendered number gives the number back |
| Amarify.ZeroPad | amarify.py:129 | padding to a width gives the longer of the string and the width |
| Amarify.LeadingZeros | amarify.py:129 | leading zeros do not change the value |
| Amarify.ZerosValue | amarify.py:129 | a run of zeros reads as 0 |
| Amarify.ImsiRoundTrip | amarify.py:129 | the IMSI reads back as 1010123456789 plus the UE id |
| Amarify.ImsiLength | amarify.py:129 | the IMSI has 15 digits while the value fits in 15 digits |
| Amarify.TrafficEvents | amarify.py:319-322 | one traffic event per interval, in order, of the protocol's kind |
| Amarify.SimEvents | amarify.py:315-326 | power on at 0, one traffic event per interval in order, power off at the horizon |
| Amarify.EventsRoundTrip | amarify.py:315-326 | the intervals can be read back from the event list |
| Amarify.PowerOnFirst | amarify.py:316 | the power-on event at time 0 adds no interval |
| Amarify.TrafficRoundTrip | amarify.py:319-322 | the intervals can be read back from the traffic events |
| Amarify.UeConfigurator.constructor | amarify.py:122-124 | the id counter starts at -1 |
| Amarify.UeConfigurator.ConfigTemplate | amarify.py:120-166 | each call takes the next UE id, with its zero-padded IMSI, its IMEISV and the fixed key, release, category and database fields |
| Amarify.UeConfigurator.ConfigureAlt | amarify.py:289-328 | an unsupported protocol gives nothing and takes no id; otherwise the next id's full UE entry (IMSI, IMEISV, key, algorithm, release, category, the protocol's channel flag and event list) and its full database entry |
| Amarify.LifecycleEvents | amarify.py:314-326 | the events are power-on at 0, one traffic event of the protocol's kind per interval of the cycle in order, and power-off at the horizon |
| Controller.FloorDiv | main.py:73 | Python's `//`: the quotient rounded toward minus infinity, for either sign of the divisor |
| Controller.EpisodeOf | main.py:67-74 | episode 1 holds exactly the first 20 rounds of a bucket, and episode e > 1 the rounds 20 + 10(e - 2) + 1 to 20 + 10(e - 1) |
| Controller.RoundOf | main.py:68-74 | the printed round is the round count in episode 1, later the position in the episode, 0 for its last round |
| Controller.EpisodeAdvances | main.py:67-74 | a bucket's episode grows by one exactly after a round that closes an episode |
| Controller.RoundContext | main.py:52-56 | the context indices are on the grid; `no_adaptation` always uses [0, 0, 0], the other modes the bucketed context |
| Controller.UpdateFollowsSelection | main.py:80-189 | UCB1 is updated after a round exactly when UCB1 selected its arm |
| Controller.DispatchByRound | main.py:80-130 | UCB1 selects for the UCB-only modes and the first 20 rounds; policy iteration then plays the second policy for one episode and the Q-greedy policy after; value iteration plays its best actions |
| Controller.RefreshesCloseEpisodes | main.py:201-232 | the learning modes refresh after exactly the rounds that close an episode, and policy iteration's first refresh, at round 20, finds the most used arms |
| Controller.Since | main.py:65-227 | the number of rounds a bucket's window holds, zero exactly at a refresh |
| Controller.SinceStep | main.py:65-227 | one more round grows the window by one, or empties it when it closes an episode |
| Controller.RefreshSeesOneEpisode | main.py:204-227 | the first refresh reads 20 rounds, every later one 10 |
| Controller.RoundsOfSound | main.py:65 | the rounds listed for a bucket fell into it and increase |
| Controller.RoundsOfComplete | main.py:65 | every round that fell into a bucket is listed for it |
| Controller.RoundsOfSnoc | main.py:65 | a new round is listed for its own bucket only |
| Controller.LatestIsSuffix | main.py:25-26 | the latest k rounds are the list's last k |
| Controller.WindowStep | main.py:65-227 | the window after one more round: emptied if it closes an episode, otherwise extended by it |
| Controller.WindowIsLatest | main.py:25-227 | a bucket's window is its latest rounds since the last refresh: all of them in the UCB-only modes |
| Controller.UcbObjects.constructor | main.py:29 | no UCB1 object exists before the first round |
| Controller.UcbObjects.SelectArm | main.py:80-124 | the context's object is created on first use, with no history, and selects an arm; no other object changes, none is replaced |
| Controller.UcbObjects.Update | main.py:187-189 | the context's object learns the round's verdict, arm by arm as the correlation test decides |
| Controller.AgreesStep | main.py:65-227 | counting a round and extending the window, emptied at an episode end, keeps a bucket's counter and window in step with its rounds |
| Controller.BookkeepingStep | main.py:65-232 | one round keeps every bucket's counter and window in step with its rounds |
| Controller.BookkeepingAt | main.py:65-67 | the same, for one bucket |
| Controller.BookkeepingSame | main.py:65-67 | the round's own bucket counts it and extends its window |
| Controller.BookkeepingOther | main.py:65-67 | every other bucket is unchanged |
| Controller.WindowRoundsValid | main.py:65-185 | the window names rows of the trajectory, so the refreshes can read them and the rows after them |
| Controller.RecordStep | main.py:65-232 | recording a valid row keeps the books: one valid row per round, counters and windows in step |
| Controller.ControlLoop.constructor | main.py:22-39 | round 0, an empty trajectory, empty counters and windows, no UCB1 objects, empty Q, returns, counts and policies |
| Controller.ControlLoop.Round | main.py:39-236 | no live user ends the loop and resets the bandwidth to 90, changing no counter, window or table; otherwise the round is counted in its bucket and no other, its arm is the UCB1 choice of the context's object (0 for a new one) or a draw around the most used arm, a greedy Q arm or the bucket's best action, the metric is the round's slice metric of the measured delays (the no-response metric without replies, else the largest user metric) and the verdict is its test, its row is appended, and a round that closes an episode replaces exactly its estimator's tables with those computed from a full episode's window |
| Controller.ControlLoop.Advance | main.py:52-232 | one live round: the same facts as `Round` for a live round |
| Controller.ControlLoop.Act | main.py:80-189 | the selector for the episode picks the arm (the UCB1 choice of the context's object, or a draw around the arm the selector recommends), the metric is the slice metric of the delays and the verdict its test, the UCB1 object that played learns the verdict, and no other UCB1 object changes |
| Controller.ControlLoop.Book | main.py:65-232 | the round is counted in its bucket and recorded, other buckets' counters and windows stay, its window is the bucket's rounds since the last refresh, and the refresh the round calls for replaces exactly its estimator's tables |
| Controller.ControlLoop.SelectAction | main.py:80-130 | UCB1 selects through the context's object; the second policy draws around the most used arm, the Q policy around a greedy arm, value iteration around the best action; no other UCB1 object changes |
| Controller.ControlLoop.Record | main.py:65-185 | the counter, the window and the trajectory grow by the round and the books stay in step |
| Controller.ControlLoop.RefreshEstimators | main.py:201-232 | refreshes exactly when the round calls for it, replacing only that estimator's tables, and empties the window then; otherwise nothing changes |
| Controller.ControlLoop.RefreshTables | main.py:201-232 | the tables of the refresh's kind become those of the window, and the other tables stay |
| Controller.RefreshedByMostUsed | main.py:204-209 | a most-used table computed from the window, with every other table kept, is the first episode's refresh |
| Controller.RefreshedByPolicy | main.py:211-216 | Q values and returns from policy iteration over the window, with every other table kept, are a later episode's refresh under policy iteration |
| Controller.RefreshedByValues | main.py:218-229 | the bucket's updated counts and value iteration's greedy policy on their matrix, with other buckets and tables kept, are an episode's refresh under value iteration |
| Controller.ControlLoop.RefreshMostUsed | main.py:205-209 | the most-used-arm table becomes that of the window |
| Controller.ControlLoop.RefreshPolicy | main.py:212-216 | Q and the returns become those of policy iteration on the window |
| Controller.ControlLoop.RefreshValues | main.py:219-229 | the bucket's transition counts gain the window's transitions, and its best-action map becomes value iteration's greedy policy on the matrix built from them; other buckets' counts and maps stay |

## Left out

- Remote and process I/O is not modelled: SSH/SFTP, `subprocess`, the websocket API of the radio (`run_ws_command`, `ws_set_bandwidth`, `ws_get_user_status`) and the `fetch_*`, `log_load`, `parse_*` and `extract_*_since/within/sample` wrappers. Their results are inputs of the model.
- Reading and writing the trajectory file is not modelled; the rows are a sequence of records passed in.
- `Bandit.UCB1.Update`: takes a QoS reward in [0, 1], where the Python method accepts any number; its only caller passes the verdict of `evaluate_qos`, 0 or 1 (main.py:166, 189). The bound is what keeps every fed reward, and so every running mean, in [0, 1].
- Sleeps, timing prints, printed diagnostics and the `KeyboardInterrupt` path of main.py are left out.
- Random draws are not modelled: `np.random.choice` becomes the `choose` parameter, and the model states the pmf it draws from. `random.shuffle` before the tree build, `ue_lifecycle`, `channel_attributes` and the `__main__` simulations are left out.
- Floating point is modelled as exact `real` arithmetic. The equality tests `reward == 1` (util/ucb1.py:72) and `QoS_reward == 1` (util/RL.py:220) are therefore exact, which they need not be in floating point.
- The exponential cost variant (`math.exp`) is not modelled; only the normal cost is.
- The UCB bonus `sqrt(2 ln n / c)` and `np.percentile` are abstract function parameters (`bonus`, `tail`), so their numeric values are not modelled.
- Rounding of the MCS to two decimals and of the QoS metric before they are written to the trajectory is not modelled.
- Regular-expression matching, `datetime.strptime`, `time_to_ms`, `int(s, 16)` on log text and `json.loads` are abstracted. A log line is a record of what the filters test (`LogLine`, `MacHeader`), and a JSON report is an already-decoded record.
- `parse_ip_packet_cluster` depends on the informal Amarisoft log layout and is not modelled.
- Packet identifiers are taken to be distinct per window; what collisions would do beyond "first stored wins" in the tree is not modelled.
- Log file names are abstracted to their time stamps.
- `LogFlatten.MsToSecondsCeil`: takes whole milliseconds, not an arbitrary float.
- `LogFlatten.ExtractTimestamp`: recognises ASCII digits only, where Python's `\d` also matches other Unicode digits.
- `Amarify.UeLifecycleAlt`: UE counts are natural numbers; a negative count, which `range` would treat as zero, is not modelled.
- `Amarify.UeConfigurator.ConfigureAlt`: the unsupported-protocol path returns `None`, standing for the two-element `({}, {})` the source returns where callers unpack three values.
- `AvlTree`: the AVL tree is modelled on immutable tree values, not as linked nodes updated in place. It is built only by code that the source has commented out (util/e2estats.py:280).
- `BsTree.BSTree.Insert`: the tree is built in the order given; the `random.shuffle` before the build is not modelled.
- `Controller.ControlLoop.Round`: states the round's choice, verdict, bookkeeping and refresh, but not the UCB objects' keys, iteration counts and fed rewards, or that the other objects are unchanged; `Controller.ControlLoop.Act` states those.
- `Controller.ControlLoop`: the trajectory write comes after the UCB update in the model. Neither reads what the other writes, so the final state is the same.
- `Controller.ControlLoop`: the RL reward computed in main.py:169 is only printed and is not part of the state.
- `ValueIteration.RunValueIteration`: a `fuel` bound on the number of sweeps replaces the unbounded `while max_deviation > theta` loop. The contract states that every sweep before the last deviated by more than theta, and that the last one deviated by at most theta whenever fewer than `fuel` sweeps ran.
- `ValueIteration.RunSweeps`: bounded by the same `fuel`.
- `Transitions`: row totals are summed over the 32 grid outcomes that value iteration reads, not over the dictionary's keys. The two coincide because verdicts are 0 or 1.
- Plotting (`util/plot_trajectory.py`, `plot_piecewise_constant_function`, `create_acitivity_plot`) and the `get_config_content` text template are left out.

## Findings

| source | as written | input that shows it | evidently intended | confidence | as-written member | corrected member |
|---|---|---|---|---|---|---|
| util/e2estats.py:387-393 | the scan stops once `current - first > 1` second; the lines are newest first, so `current <= first` and the window never closes, and a stale report fills a user's slot | newest-first lines at 10.000 s (no report) and 6.000 s (UL report of user 1, buffer index 7), users `[1]`: the result is `[(0, 7)]` from a report 4 s old | stop once `first - current > 1` second, so only reports from the last second count and the result is `[(0, 0)]` | not executed | LastBsr.LastBsrAsWritten | LastBsr.LastBsrOf |
