# Verified model of hopr-api

`hopr-api` is mostly traits; this project models the parts of it that decide something and proves
what they promise.

**Path value functions** (`src/graph/function.rs`). Path search folds an edge value function over a
path, starting from 1, and drops the path as soon as its value is not positive. An edge is rejected
by negating the incoming value.

- `GraphTraits.dfy`: the observations an edge reports; the aggregate score of section 4.2 of RFC-0014.
- `EdgeValueFunctions.dfy`: scoring, health, acknowledgement and funding rules, the three
  constructors, the pruned and the unpruned fold.
- `EdgeAdmission.dfy`: when one edge is accepted, stated without values or signs, and why the sign of
  a step says the same.
- `PathAcceptance.dfy`: which paths survive, product decomposition, concatenation, prefixes.
- `PathFunding.dfy`: the triangular bound on balances.
- `PathValues.dfy`: values only shrink; starved but never pruned.
- `PathClosedForm.dfy`: the exact value of every surviving path and of every step, rejections included.
- `PathConstructors.dfy`: the three constructors in terms of their arguments: acceptance and worth of full paths.
- `PathConnectivity.dfy`: what the connectivity reported for one edge does to a path.
- `PathComparisons.dfy`: better observations never hurt; where the constructors agree.
- `PathMeasurements.dfy`: what a first score, acknowledgement rate or health verdict does to a path.
- `PathParameters.dfy`: what the face value, the minimum rate and the penalty can change.
- `PathSigns.dfy`: the sign law of the fold without pruning, and when an end-of-path check differs.

**Channel selectors and redemption** (`src/chain/channels.rs`, `src/tickets/mod.rs`).

- `ChannelSelectors.dfy`: the builder as a class, the normal form of every call sequence, and exactly
  when redemption honours the selector it is given.
- `TicketRedemption.dfy`: opening the streams, merging them under every schedule, collecting results.

**Channel operations** (`src/node/incentive.rs`). `ChainOperations.dfy`: opening, funding and closing
as a state machine over every interleaving of the operation, the chain, the event waiter and the clock.

**Deposit batches** (`src/chain/deposit_pool.rs`). `DepositBatches.dfy`: `join_all` over arbitrary
operations on a shared pool, polled in any order.

`Wrappers.dfy` holds `Option` and `Result`. `dafny verify dfyconfig.toml` checks everything.

## Reading notes

- A closure's captured parameters are the fields of `EdgeValueFn`; the closure is `Step`. Acceptance and worth are
  stated in words of their own (`NotDown`, `FundedFor`, `Usable`, ...), which the modelled functions do not use.
- Values, scores and rates are real numbers; health keeps NaN and the infinities, which have a meaning.
- The aggregate score is a free field of an observation, so every theorem holds for any aggregate; only
  the monotonicity of whole paths assumes the RFC-0014 combination.
- Acceptance is stated for every penalty and every minimum acknowledgement rate, zero included: an
  edge whose value becomes exactly zero is dropped, and `AcksEnough` says when that happens.
- `src/graph/traits.rs:336` says that paths *below* the minimum are discarded, `src/graph/function.rs:14-16`
  that non-positive values are. The model follows the latter, which the functions rely on.
- `src/graph/function.rs:56` says that a rate below the minimum rejects the edge. Where a direct route to a peer
  without a known balance is observed down, the code no longer looks at the rate (`LosingADirectRoute`).
- `src/graph/function.rs:57` scales acknowledgement rates above the minimum; the code also accepts a rate equal to it.
- `src/graph/function.rs:32-34` floors the penalty so that a configured 0 drops no edge by its score. An edge
  gated by an unknown acknowledgement rate still becomes exactly zero then; `Vanishes` lists these cases.
- Knowing more is not always better: a first measurement replaces the penalty. `PathMeasurements` says when it hurts.
- The event waiter of `src/node/accessors.rs:49-58` looks at the events since its subscription one by one and
  may lag behind the chain; its timeout may elapse at any time, also before an event it has not looked at yet.
- `src/tickets/mod.rs:127-128` promises the incoming redeemable channels that also match the given
  selector. The code sets the destination, which unsets an id, adds two allowed states to those given,
  and replaces the closure range. It keeps the promise exactly for the selectors called `Narrows`.
- A channel's id is computed from its source and destination (`src/chain/channels.rs:162-163`,
  `src/node/incentive.rs:45`): different parties have different ids, and a selector may also hold an id of no channel.
- A submission that fails returns at once (`src/node/incentive.rs:60-64`), without the abort that a failed
  confirmation performs, so the event waiter keeps running. The model keeps this.

## Model

| member | source | states |
|---|---|---|
| EdgeAdmission.FundingIsExact | src/graph/function.rs:85-99 | the overflow-checked 256-bit funding test holds iff no hop remains or a balance is known and hops times face value, in unbounded integers, does not exceed it |
| EdgeAdmission.FundingIsMonotone | src/graph/function.rs:66-99 | fewer hops, cheaper tickets and a larger balance never turn a sufficient channel into an insufficient one |
| EdgeAdmission.EdgeValueIsLinear | src/graph/function.rs:105-119 | before health, an edge scales its incoming value by a factor of its own, whatever the sign of that value |
| EdgeAdmission.StreamFactorSign | src/graph/function.rs:205-256 | that factor is positive iff the streams admit the edge, zero iff the edge passes every check and yet vanishes (a zero penalty standing in for an acknowledgement rate or a last edge, or a zero rate under a zero minimum), negative otherwise |
| EdgeAdmission.HealthSign | src/graph/function.rs:42-52 | health keeps a value positive iff it was positive and the relayer is unjudged, NaN or above zero, and then scales it by at most one |
| EdgeAdmission.StepIsHomogeneous | src/graph/function.rs:258-268 | scaling the incoming value by k > 0 scales the result by k, for negative values too |
| EdgeAdmission.StepOnPositive | src/graph/function.rs:205-268 | a step keeps a positive value positive iff the edge is admitted, and multiplies it by the edge's value at one |
| PathAcceptance.PathValueIsProduct | src/graph/function.rs:258-268 | a path survives iff every edge is admitted at its position, and is then worth the product of the edges' values at one |
| PathAcceptance.ConcatenationIsProduct | src/graph/function.rs:205-268 | a concatenation survives iff both parts do, the second at its shifted position, and is worth the product of both |
| PathAcceptance.PrefixesOfSurvivorsSurvive | src/graph/function.rs:14-16 | pruning early loses no path that would survive: every prefix of a surviving path survives |
| PathAcceptance.RankingIgnoresThePrefix | src/graph/traits.rs:330-336 | two continuations rank the same way behind every surviving prefix |
| PathAcceptance.ForwardAcceptance | src/graph/function.rs:205-268 | exact acceptance of a full forward path of two or more edges: live acknowledging first edge, funding for the remaining hops on every edge but the last, usable relayers, and a last edge that is known, live or penalized above zero |
| PathAcceptance.DirectRouteAcceptance | src/graph/function.rs:206-237 | exact acceptance of a single-edge route, including when acknowledgements gate it |
| PathAcceptance.ReturningAcceptance | src/graph/function.rs:301-330 | exact acceptance of a full return path: funding and usable relayers on every edge but the last, which must be live and acknowledging |
| PathAcceptance.LoopbackAcceptance | src/graph/function.rs:364-388 | exact acceptance of a probe path of any length up to the declared one; every edge is judged as a relayer |
| PathAcceptance.LongerThanDeclaredIsDropped | src/graph/function.rs:251-254 | no path longer than the declared length survives any constructor |
| PathFunding.SurvivorsHoldATriangle | src/graph/function.rs:68-99 | edge i of a surviving path holds at least the face value of the hops after it, and the first edges together the sum of these |
| PathFunding.TriangularFunding | src/graph/function.rs:244-255 | the edges before the last hold together at least face * n * (n - 1) / 2, for each constructor |
| PathValues.StepShrinks | src/graph/function.rs:31-65 | with scores and rates in [0,1] no edge raises a positive value |
| PathValues.PrefixesBoundTheirExtensions | src/graph/function.rs:31-65 | a surviving path is worth a value in (0,1], and every prefix of it at least as much |
| PathValues.SurvivorsKeepAFloor | src/graph/function.rs:11-40 | for every penalty a surviving path is worth at least the product of its edges' floors, times min(minimum rate, penalty) if its gated edge is among them, times its relayers' health; the floors are positive, and (1e-9)^k for k edges once the penalty is at least 1e-9 |
| PathValues.ScoresNeverDrop | src/graph/function.rs:11-17 | replacing any scores on any edges never changes whether a path survives |
| PathClosedForm.StreamFactorIs | src/graph/function.rs:31-65 | an admitted edge scales by the score of the stream its position selects, floored at 1e-9, and by the acknowledgement rate or the penalty where it is gated |
| PathClosedForm.SurvivorsAreWorth | src/graph/function.rs:193-390 | a surviving path is worth exactly its score shares times one acknowledgement share times its health shares |
| PathClosedForm.RejectionNegates | src/graph/function.rs:40-65 | for every incoming value: a rejection by the streams returns exactly its negation, a rate below the minimum the negated scored value, a dead relayer the negation of what the streams made of it; an admission multiplies by score and acknowledgement share, health by its share |
| PathConstructors.ForwardFromArguments | src/graph/function.rs:193-268 | `forward` called with rates p and m in [0,1] and any face value: exactly which full paths over relays it accepts, and what they are worth, in terms of p, m and the ticket value |
| PathConstructors.DirectFromArguments | src/graph/function.rs:206-237 | the same for a route of one edge |
| PathConstructors.ReturningFromArguments | src/graph/function.rs:287-330 | the same for `returning` |
| PathConstructors.LoopbackFromArguments | src/graph/function.rs:352-388 | the same for `forward_without_self_loopback` and every probe length within the declared one |
| PathConstructors.RatesActAsTheNearest | src/graph/function.rs:200-201 | on every path, a penalty or minimum rate below 0 acts as 0 and one above 1 as 1 |
| PathConstructors.OmittedFaceValueCountsHops | src/graph/function.rs:19-27 | without a face value, edge i before the last of a surviving n-edge path holds a balance of at least n - 1 - i |
| PathConnectivity.DisconnectionDrops | src/graph/function.rs:238-250 | for every path and constructor: an edge this node is an end of (the first of a forward path over relays or a probe, the last of a return path) that was observed down, or has no immediate stream, drops the path |
| PathConnectivity.UncheckedCountsAsConnected | src/graph/function.rs:1244-1262 | at every position of every path, unchecked connectivity gives the same value as an observed connection |
| PathConnectivity.ConnectivityIsIgnored | src/graph/function.rs:205-255 | elsewhere connectivity changes nothing, but for the last edge of a forward path without a known balance |
| PathConnectivity.LosingTheLastEdge | src/graph/function.rs:224-237 | there, over relays, a disconnection exchanges the immediate score for the penalty, and drops the path iff the penalty is zero |
| PathConnectivity.LosingADirectRoute | src/graph/function.rs:224-237 | on a direct route it also lifts the acknowledgement gate: the route is then worth the penalty, whatever its rate |
| PathComparisons.AggregateIsMonotone | src/graph/traits.rs:113-119 | the aggregate of two streams grows with each of them when the same streams have observations |
| PathComparisons.BetterObservationsNeverHurt | src/graph/function.rs:193-390 | if the same things are known of both paths and nothing is lower on the better one, it survives whenever the worse does, with at least its value |
| PathComparisons.ConstructorsAgreeInside | src/graph/function.rs:312-317 | every stretch of a path strictly between its first and last edge has the same fold under all three constructors |
| PathComparisons.ProbesAgreeWithTraffic | src/graph/function.rs:332-387 | for all parameters, `forward_without_self_loopback` and `forward` give every proper prefix the same verdict and value |
| PathComparisons.ProbesAskMoreOfTheLastEdge | src/graph/function.rs:343-387 | over a full path the probe's verdict is the traffic verdict plus a relayed stream and a usable relayer on the last edge, except that traffic must have something to value that edge by |
| PathMeasurements.ReplacedEdgeDecides | src/graph/function.rs:258-268 | replacing one edge of a surviving path keeps the path iff the new edge is admitted, and then raises or lowers its value iff it raises or lowers that edge's |
| PathMeasurements.FirstScoreMovesThePath | src/graph/function.rs:29-40 | the first score of a stream never drops a surviving path; where the position reads that stream it exchanges what stood in for it (the penalty, or on a first edge the other stream's score x) for s, or (x + s) / 2, each floored at 1e-9, and so lowers the value iff it is below a stand-in above the floor; elsewhere it changes nothing |
| PathMeasurements.FirstFailedProbeHurts | src/graph/function.rs:11-40 | so a failed first probe lowers a surviving path iff what stood in for it was above the floor |
| PathMeasurements.FirstAckRateMovesThePath | src/graph/function.rs:54-65 | the first acknowledgement rate of a gated edge keeps the path iff it reaches the minimum and is positive, and then does not lower it iff it reaches the penalty; of another edge it changes nothing |
| PathMeasurements.FirstHealthMovesThePath | src/graph/function.rs:42-52 | the first health verdict keeps the path iff the relayer is usable or not judged there, never raises its value, and leaves it alone iff the share it keeps is one |
| PathParameters.DearerTicketsOnlyDrop | src/graph/function.rs:85-119 | raising the face value drops paths or leaves their value exactly as it was |
| PathParameters.StricterRatesOnlyDrop | src/graph/function.rs:54-65 | raising the minimum acknowledgement rate drops paths or leaves their value exactly as it was |
| PathParameters.MilderPenaltiesNeverHurt | src/graph/function.rs:29-65 | raising the penalty multiplier never drops a path and never lowers its value |
| PathSigns.StepSign | src/graph/function.rs:42-65 | for every value: a rejection flips the sign, an admission keeps it, a dead relayer makes any value negative, and only a vanishing edge makes it zero |
| PathSigns.SignOfAnyFold | src/graph/function.rs:42-65 | the unpruned fold of any path is zero iff an edge vanishes, and otherwise has the sign of the parity of its rejections, of which only those after the last dead relayer count |
| PathSigns.ParityRestartsAfterDeadRelayer | src/graph/function.rs:42-52 | behind any dead relayer only the rejections after the last one are counted, whatever came before |
| PathSigns.SurvivorsAgree | src/graph/function.rs:258-268 | the pruned fold, where it survives, equals the unpruned one |
| PathSigns.EndCheckDiffersExactly | src/graph/function.rs:42-44 | for all paths: a check at the end only accepts a dropped path iff no edge vanishes and the rejections after its last dead relayer are odd or, without dead relayers, even and not none |
| PathSigns.TwoRejectionsSlipThrough | src/graph/function.rs:42-44 | two unobserved edges before any admitted continuation pass such a check and are dropped by pruning |
| ChannelSelectors.ChannelSelector.WithSource | src/chain/channels.rs:58-62 | sets the source and unsets the id, nothing else |
| ChannelSelectors.ChannelSelector.WithDestination | src/chain/channels.rs:68-72 | sets the destination and unsets the id, nothing else |
| ChannelSelectors.ChannelSelector.WithId | src/chain/channels.rs:78-83 | sets the id and unsets source and destination |
| ChannelSelectors.ChannelSelector.WithAllowedStates | src/chain/channels.rs:87-90 | adds to the allowed states |
| ChannelSelectors.ChannelSelector.WithClosureTimeRange | src/chain/channels.rs:96-99 | replaces the closure range |
| ChannelSelectors.ChannelSelector.WithRedeemableChannels | src/chain/channels.rs:106-112 | adds Open and PendingToClose, and a closure no earlier than now plus the grace period |
| ChannelSelectors.ChannelSelector.Satisfies | src/chain/channels.rs:115-150 | the early-returning match decides the acceptance predicate |
| ChannelSelectors.BuilderNormalForm | src/chain/channels.rs:53-99 | of any call sequence: a party or id is set iff its last call was not unset later, an id excludes both parties, states accumulate, the last range wins |
| ChannelSelectors.SelectorsAccept | src/chain/channels.rs:115-150 | which channels any selector accepts, spelled out for every state and every kind of bound; an id hides the parties |
| ChannelSelectors.BuiltSelectorsConjoinFilters | src/chain/channels.rs:115-150 | on every built selector the match is the plain conjunction of all filters, spelled out |
| ChannelSelectors.RedemptionSelects | src/chain/channels.rs:106-112 | with any base selector or none, any grace period or none: redemption selects the incoming channels of the base's source, if any, that are open, close no sooner than the grace period from now (from now on, without one), or are closed where the base asks for closed ones |
| ChannelSelectors.RedemptionSelectsExactly | src/tickets/mod.rs:153-158 | for every base selector: redemption visits, for all channels, the redeemable incoming ones that also match it iff it has no other destination, an id only if that names its own source and this node, and no states or those redemption asks for with a range covering the deadline |
| ChannelSelectors.BuiltSelectorsNarrow | src/chain/channels.rs:53-99 | for selectors the builder can build, that condition is having no id, no other destination and such states |
| ChannelSelectors.NodeCallersNarrow | src/node/incentive.rs:315-352 | the selectors of both callers meet that condition |
| TicketRedemption.NodeRedemptionsVisitExactly | src/node/incentive.rs:299-352 | both callers visit exactly the channels to this node, of any or of the given issuer, that are open or close no sooner than in 30 seconds |
| TicketRedemption.RedeemInChannels | src/tickets/mod.rs:138-175 | a chain error is returned; otherwise the group holds exactly one stream for each ledger entry that is selected and opens, in ledger order, and no other |
| TicketRedemption.FailedStreamsAreSkipped | src/tickets/mod.rs:160-168 | a channel whose stream fails to open contributes nothing and changes nothing for the others |
| TicketRedemption.OpenedStreamsAreSelected | src/tickets/mod.rs:151-172 | a stream is in the group iff its channel is known, selected, and opens to it |
| TicketRedemption.EveryScheduleConserves | src/tickets/mod.rs:136-137 | at every moment of every schedule, what a stream yielded followed by what it holds is that stream |
| TicketRedemption.ChannelsKeepTheirOrder | src/tickets/mod.rs:136-137 | a channel's results are always a prefix of its stream, in order, and all of it once finished |
| TicketRedemption.FinishedRunsAreTheInterleavings | src/tickets/mod.rs:151-174 | the outputs of finished runs are exactly the interleavings of the opened streams |
| TicketRedemption.ChannelsAreRedeemedOnce | src/tickets/mod.rs:127-137 | over distinct channels, a finished run of that group yields of each channel that redeems exactly the items of its stream, as often and in that order, and of the others nothing |
| TicketRedemption.EveryRunCanFinish | src/tickets/mod.rs:169-174 | no deadlock: whatever has been polled, some continuation drains every stream |
| TicketRedemption.CollectedRedemptions | src/node/incentive.rs:315-326 | collecting a finished run succeeds iff no stream held an error, with one result per item; otherwise it reports an error a stream held |
| TicketRedemption.FirstErrorDecides | src/node/incentive.rs:323-326 | once an error was yielded, no later progress changes what is reported |
| TicketRedemption.ResultsComeFromSelectedChannels | src/tickets/mod.rs:138-172 | whatever the base selector, every result comes from the stream of a known channel that the redemption selects |
| TicketRedemption.ResultsAreWantedExactly | src/tickets/mod.rs:127-138 | over all ledgers, ticket managers and schedules, every result comes from a channel that matches the caller's selector and is redeemable iff that selector narrows |
| ChainOperations.EveryRunIsSound | src/node/incentive.rs:39-160 | every run keeps: no matching event lies between the subscription and the listening waiter's position, a delivered event is the first match since subscription, an outcome agrees with receipt and event, no panic |
| ChainOperations.EveryRunIsInItsStage | src/node/incentive.rs:47-76 | of every run, read off its actions alone: each stage is decided by the first action of its kind after the stage before; its error is the outcome, and subscription and submission hold the event log lengths of their own actions |
| ChainOperations.OperationsAwaitTheirEvents | src/node/incentive.rs:47-160 | which event completes which operation, kind by kind, and what is reported of it |
| ChainOperations.NextEventDecides | src/node/accessors.rs:49-58 | a waiter that is up to date is completed by the next event iff that completes the operation, and otherwise listens on behind it |
| ChainOperations.NoLostConfirmation | src/node/incentive.rs:47-76 | from the subscription on, a matching event emitted while the waiter listens is delivered once it has worked off its backlog, in every interleaving without timeout and failed transaction before that |
| ChainOperations.DeliveredStays | src/node/incentive.rs:66-76 | a delivered event stays delivered, whatever happens later |
| ChainOperations.ConfirmedOperationsSucceed | src/node/incentive.rs:60-76 | a submitted and confirmed operation whose event was emitted since its subscription and worked off in time returns success |
| ChainOperations.SubscriptionPrecedesSubmission | src/node/incentive.rs:47-64 | a submission that counted is preceded by the action that subscribed, and both recorded positions are the lengths of the event log at those actions |
| ChainOperations.OutcomesAreFinal | src/node/incentive.rs:66-76 | an outcome never changes |
| ChainOperations.SuccessIsConfirmed | src/node/incentive.rs:39-160 | success means that the actions resolved, subscribed, submitted and confirmed that transaction, in this order, and the output is read off the first completing event emitted after the subscribing action |
| ChainOperations.ClosureReportsItsEvent | src/node/incentive.rs:121-160 | a closure reports the status of a closing event of its own channel and never reaches the unreachable arm |
| ChainOperations.OpeningsAndFundingsReportTheirEvent | src/node/incentive.rs:47-111 | a successful opening reports its channel id after an opening event of that channel; a successful funding follows an increase of exactly its amount in its channel |
| ChainOperations.ReceiveDecides | src/node/incentive.rs:104-110 | a confirmed operation succeeds iff the event beat the timeout, fails iff it did not, and otherwise waits |
| ChainOperations.TimeoutsDecide | src/node/accessors.rs:49-58 | once the timeout elapsed while listening no later event counts, and an operation awaiting its event ends with that timeout |
| ChainOperations.FailedConfirmationAborts | src/node/incentive.rs:66-71 | a failed confirmation is the outcome, and a listening waiter is aborted |
| ChainOperations.FailedSubmissionKeepsTheWaiter | src/node/incentive.rs:60-64 | a failed submission is the outcome of every run, with the waiter exactly as it was |
| ChainOperations.EndedOperationsLeaveAWaiter | src/node/incentive.rs:60-71 | an ended operation leaves a listening waiter iff it had subscribed, never submitted, and neither event nor timeout had reached the waiter |
| ChainOperations.ReportedEventFollowsSubmission | src/node/incentive.rs:47-110 | the event a success reports follows the submission iff no matching event fell between subscription and submission |
| ChainOperations.OneEventIsReported | src/node/incentive.rs:104-110 | a success reports exactly one position of the event log, the first match since subscription |
| ChainOperations.EventMayPrecedeSubmission | src/node/incentive.rs:87-110 | the other case does happen, for every operation: an equal event between subscription and submission is reported |
| DepositBatches.RunIsFaithful | src/chain/deposit_pool.rs:97-105 | under every schedule a call begins at the first poll of its future, once, with its own arguments |
| DepositBatches.RunsThreadThePool | src/chain/deposit_pool.rs:97-105 | every run is one thread of polls: each finds the pool the poll before it left, starting from the launch pool, and its call's local state as that call's own last poll left it; the batch ends in the last pool, with what each call's last poll made of it |
| DepositBatches.ResultsStay | src/chain/deposit_pool.rs:97-105 | what a call returned stays its result however the other calls go on |
| DepositBatches.TasksHoldWhatTheyReturned | src/chain/deposit_pool.rs:97-105 | under every schedule a task holds a result iff the last poll of its own call returned it |
| DepositBatches.BatchesAttributeOutcomes | src/chain/deposit_pool.rs:36-106 | a finished batch began the call of every input once and has at its position exactly what the last poll of that call returned, in the pool and local state of that poll, a receipt under the input's id |
| DepositBatches.BatchesIsolate | src/chain/deposit_pool.rs:93-106 | if a call's polls depend on and change only a view of the pool that the other calls leave alone, its task and that view stand under every schedule exactly as if it had been polled alone |
| DepositBatches.DepositsAreAttributed | src/chain/deposit_pool.rs:93-106 | the above for batch deposits: one call a deposit and no other, with its arguments and its id |
| DepositBatches.WithdrawalsAreAttributed | src/chain/deposit_pool.rs:135-146 | the above for batch withdrawals: one full withdrawal a key, into the one address |
| DepositBatches.TransfersAreAttributed | src/chain/deposit_pool.rs:163-185 | the above for batch transfers: one full transfer a key, each outcome under its source id |
| DepositBatches.IdsIdentifyOutcomes | src/chain/deposit_pool.rs:36-37 | with distinct ids, a finished batch holds a receipt under an id, at whatever position, iff the call of that id returned it |

## Left out

- IEEE-754 rounding, underflow and a NaN penalty or minimum rate: values are reals, so the floor of a long path is positive here even where a double would underflow.
- The graph traversal (`simple_paths`, loopbacks, path ids): only signatures exist; a traversal is represented by the pruned fold.
- The inside of redeem streams, `ticket_stats`, `neglect_tickets` and on-chain redemption: contracts without code; a stream is any finite sequence of results.
- Stream group, `join_all`, abort handles and the event waiter: their documented behaviour is assumed, as steps a scheduler, the chain or the clock may take at any time.
- Errors of the event waiter other than timeout and abort: its contract names none.
- TicketRedemption.RedeemInChannels: the streams are finite sequences, so polling, waking and memory of the stream group are not captured.
- Channel id hashing and the clock: ids of different parties do not collide; the current instant is a parameter; adding a grace period does not overflow.
- `AccountSelector`, `SafeSelector`, `ServiceSelector`, status enums, session builders, balance and info queries: each is settled by reading one expression.
- Cryptography, serialization, logging, network views and transports: outside the modelled decisions.
