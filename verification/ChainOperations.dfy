// Opening, funding and closing a channel (src/node/incentive.rs): resolve a timeout, subscribe to
// the confirming event, submit, wait for the transaction, wait for the event.
//
// A run is any sequence of actions of the operation, the chain, the event waiter and the clock. An
// action that is not possible in a state leaves it unchanged, so every interleaving is a run. The
// waiter works through the events since its subscription one by one, at its own pace.
module ChainOperations {
  import opened Wrappers
  import opened ChannelSelectors

  type TxHash = nat
  type Amount = nat

  // EitherErr of the node API: chain errors left, waiter errors right.
  datatype Fault = ChainFault(code: nat) | WaitFault(code: nat)

  const TIMED_OUT := WaitFault(0)
  const ABORTED := WaitFault(1)

  datatype ChainEvent =
    | ChannelOpened(channel: Channel)
    | ChannelClosureInitiated(channel: Channel)
    | ChannelClosed(channel: Channel)
    | ChannelBalanceIncreased(channel: Channel, amount: Amount)
    | ChannelBalanceDecreased(channel: Channel, amount: Amount)
    | OtherEvent

  datatype Operation =
    | OpenChannel(me: Address, destination: Address)
    | FundChannel(id: ChannelId, amount: Amount)
    | CloseChannel(id: ChannelId)

  datatype Output = NewChannel(id: ChannelId) | NoOutput | NewStatus(status: ChannelStatus)

  // The predicate each operation hands to the event waiter.
  predicate Matches(op: Operation, e: ChainEvent) {
    match op
    case OpenChannel(me, destination) => e.ChannelOpened? && e.channel.Id() == IdOf(me, destination)
    case FundChannel(id, amount) => e.ChannelBalanceIncreased? && e.channel.Id() == id && e.amount == amount
    case CloseChannel(id) => (e.ChannelClosed? && e.channel.Id() == id) || (e.ChannelClosureInitiated? && e.channel.Id() == id)
  }

  // What the operation makes of the delivered event; None is the unreachable arm of the closure.
  function OutputOf(op: Operation, e: ChainEvent): Option<Output> {
    match op
    case OpenChannel(me, destination) => Some(NewChannel(IdOf(me, destination)))
    case FundChannel(_, _) => Some(NoOutput)
    case CloseChannel(_) =>
      if e.ChannelClosureInitiated? || e.ChannelClosed? then Some(NewStatus(e.channel.status)) else None
  }

  // `next` is the position of the first event the waiter has not looked at.
  datatype Waiter = NotSubscribed | Listening(next: nat) | Delivered(event: ChainEvent) | TimedOut | Aborted

  datatype Phase =
    | Resolving
    | Subscribing
    | Submitting
    | Confirming
    | AwaitingEvent
    | Done(outcome: Result<(TxHash, Output), Fault>)
    | Panicked

  // `log` is every event the chain emitted; the positions are lengths of it.
  datatype State = State(
    phase: Phase,
    waiter: Waiter,
    log: seq<ChainEvent>,
    subscribedAt: Option<nat>,
    submittedAt: Option<nat>,
    tx: Option<TxHash>)

  const INITIAL := State(Resolving, NotSubscribed, [], None, None, None)

  datatype Action =
    | Emit(event: ChainEvent)
    | Observe
    | Expire
    | Resolve(error: Option<nat>)
    | Subscribe(error: Option<nat>)
    | Submit(error: Option<nat>)
    | Confirm(receipt: Result<TxHash, nat>)
    | Receive

  function Fail(s: State, fault: Fault): State {
    s.(phase := Done(Err(fault)))
  }

  function Act(op: Operation, s: State, a: Action): State {
    match a
    case Emit(e) => s.(log := s.log + [e])
    case Observe =>
      if !s.waiter.Listening? || s.waiter.next >= |s.log| then s
      else
        var e := s.log[s.waiter.next];
        s.(waiter := if Matches(op, e) then Delivered(e) else Listening(s.waiter.next + 1))
    case Expire => if s.waiter.Listening? then s.(waiter := TimedOut) else s
    case Resolve(error) =>
      if !s.phase.Resolving? then s
      else if error.Some? then Fail(s, ChainFault(error.value))
      else s.(phase := Subscribing)
    case Subscribe(error) =>
      if !s.phase.Subscribing? then s
      else if error.Some? then Fail(s, ChainFault(error.value))
      else s.(phase := Submitting, waiter := Listening(|s.log|), subscribedAt := Some(|s.log|))
    case Submit(error) =>
      if !s.phase.Submitting? then s
      else if error.Some? then Fail(s, ChainFault(error.value))
      else s.(phase := Confirming, submittedAt := Some(|s.log|))
    case Confirm(receipt) =>
      if !s.phase.Confirming? then s
      else
        (match receipt
         case Err(code) => Fail(if s.waiter.Listening? then s.(waiter := Aborted) else s, ChainFault(code))
         case Ok(tx) => s.(phase := AwaitingEvent, tx := Some(tx)))
    case Receive =>
      if !s.phase.AwaitingEvent? || s.tx.None? then s
      else
        (match s.waiter
         case Delivered(e) =>
           var output := OutputOf(op, e);
           s.(phase := if output.Some? then Done(Ok((s.tx.value, output.value))) else Panicked)
         case TimedOut => Fail(s, TIMED_OUT)
         case Aborted => Fail(s, ABORTED)
         case _ => s)
  }

  function Run(op: Operation, actions: seq<Action>): State {
    if actions == [] then INITIAL
    else Act(op, Run(op, actions[..|actions| - 1]), actions[|actions| - 1])
  }

  // ---- What every step of every run keeps ----

  ghost predicate NoMatchIn(op: Operation, log: seq<ChainEvent>, from: nat, to: nat) {
    forall i :: from <= i < to && i < |log| ==> !Matches(op, log[i])
  }

  ghost predicate FirstMatch(op: Operation, log: seq<ChainEvent>, from: nat, e: ChainEvent) {
    exists i :: from <= i < |log| && log[i] == e && Matches(op, e) && NoMatchIn(op, log, from, i)
  }

  ghost predicate WaiterSound(op: Operation, s: State) {
    && (s.waiter.NotSubscribed? <==> s.subscribedAt.None?)
    && (s.subscribedAt.Some? ==> s.subscribedAt.value <= |s.log|)
    && (s.waiter.Listening? ==>
          s.subscribedAt.value <= s.waiter.next <= |s.log| && NoMatchIn(op, s.log, s.subscribedAt.value, s.waiter.next))
    && (s.waiter.Delivered? ==> FirstMatch(op, s.log, s.subscribedAt.value, s.waiter.event))
  }

  ghost predicate PhaseSound(op: Operation, s: State) {
    && !s.phase.Panicked?
    && (s.phase.Resolving? || s.phase.Subscribing? ==> s.subscribedAt.None?)
    && (s.phase.Submitting? ==> s.subscribedAt.Some?)
    && (s.phase.Resolving? || s.phase.Subscribing? || s.phase.Submitting? ==> s.submittedAt.None?)
    && (s.phase.Confirming? || s.phase.AwaitingEvent? ==> s.submittedAt.Some?)
    && (s.submittedAt.Some? ==> s.subscribedAt.Some? && s.subscribedAt.value <= s.submittedAt.value <= |s.log|)
    && (s.tx.Some? ==> s.submittedAt.Some? && !s.phase.Confirming?)
    && (s.phase.AwaitingEvent? ==> s.tx.Some?)
    && (s.waiter.Aborted? ==> s.phase.Done? && s.phase.outcome.Err? && s.tx.None? && s.submittedAt.Some?)
    && (s.phase.Done? && s.waiter.Listening? ==> s.submittedAt.None?)
  }

  ghost predicate OutcomeSound(op: Operation, s: State) {
    s.phase.Done? && s.phase.outcome.Ok? ==>
      && s.waiter.Delivered?
      && s.tx == Some(s.phase.outcome.value.0)
      && OutputOf(op, s.waiter.event) == Some(s.phase.outcome.value.1)
  }

  ghost predicate Sound(op: Operation, s: State) {
    WaiterSound(op, s) && PhaseSound(op, s) && OutcomeSound(op, s)
  }

  lemma EmittingKeepsTheWaiterSound(op: Operation, s: State, e: ChainEvent)
    requires WaiterSound(op, s)
    ensures WaiterSound(op, Act(op, s, Emit(e)))
  {
    var t := Act(op, s, Emit(e));
    if s.waiter.Delivered? {
      var i :| s.subscribedAt.value <= i < |s.log| && s.log[i] == s.waiter.event && Matches(op, s.waiter.event)
               && NoMatchIn(op, s.log, s.subscribedAt.value, i);
      assert t.log[i] == s.waiter.event;
      assert NoMatchIn(op, t.log, s.subscribedAt.value, i);
    }
  }

  lemma ObservingKeepsTheWaiterSound(op: Operation, s: State)
    requires WaiterSound(op, s)
    ensures WaiterSound(op, Act(op, s, Observe))
  {
    if s.waiter.Listening? && s.waiter.next < |s.log| {
      assert NoMatchIn(op, s.log, s.subscribedAt.value, s.waiter.next);
    }
  }

  lemma ActionsKeepTheWaiterSound(op: Operation, s: State, a: Action)
    requires WaiterSound(op, s) && PhaseSound(op, s)
    ensures WaiterSound(op, Act(op, s, a))
  {
    hide NoMatchIn, FirstMatch, Matches, OutputOf;
    if a.Emit? {
      EmittingKeepsTheWaiterSound(op, s, a.event);
    } else if a.Observe? {
      ObservingKeepsTheWaiterSound(op, s);
    } else {
      assert NoMatchIn(op, s.log, |s.log|, |s.log|) by { NothingSkipped(op, s.log); }
    }
  }

  lemma NothingSkipped(op: Operation, log: seq<ChainEvent>)
    ensures NoMatchIn(op, log, |log|, |log|)
  {}

  lemma DeliveredEventsMatch(op: Operation, s: State)
    requires WaiterSound(op, s) && s.waiter.Delivered?
    ensures Matches(op, s.waiter.event) && OutputOf(op, s.waiter.event).Some?
  {}

  lemma ActionsKeepSound(op: Operation, s: State, a: Action)
    requires Sound(op, s)
    ensures Sound(op, Act(op, s, a))
  {
    hide NoMatchIn, FirstMatch, Matches, OutputOf;
    ActionsKeepTheWaiterSound(op, s, a);
    if s.waiter.Delivered? {
      DeliveredEventsMatch(op, s);
    }
  }

  lemma {:induction false} EveryRunIsSound(op: Operation, actions: seq<Action>)
    ensures Sound(op, Run(op, actions))
  {
    if actions != [] {
      EveryRunIsSound(op, actions[..|actions| - 1]);
      ActionsKeepSound(op, Run(op, actions[..|actions| - 1]), actions[|actions| - 1]);
    }
  }

  lemma RunAppends(op: Operation, actions: seq<Action>, a: Action)
    ensures Run(op, actions + [a]) == Act(op, Run(op, actions), a)
  {}

  lemma {:induction false} DeliveredStays(op: Operation, actions: seq<Action>, more: seq<Action>)
    requires Run(op, actions).waiter.Delivered?
    ensures Run(op, actions + more).waiter == Run(op, actions).waiter
    decreases |more|
  {
    if more == [] {
      assert actions + more == actions;
    } else {
      var n := |more| - 1;
      assert actions + more == actions + more[..n] + [more[n]];
      DeliveredStays(op, actions, more[..n]);
      RunAppends(op, actions + more[..n], more[n]);
      EveryRunIsSound(op, actions + more[..n]);
    }
  }

  // An outcome, once reached, is final.
  lemma {:induction false} OutcomesAreFinal(op: Operation, actions: seq<Action>, more: seq<Action>)
    requires Run(op, actions).phase.Done?
    ensures Run(op, actions + more).phase == Run(op, actions).phase
    decreases |more|
  {
    if more == [] {
      assert actions + more == actions;
    } else {
      var n := |more| - 1;
      assert actions + more == actions + more[..n] + [more[n]];
      OutcomesAreFinal(op, actions, more[..n]);
      RunAppends(op, actions + more[..n], more[n]);
    }
  }

  function Observations(actions: seq<Action>): nat {
    if actions == [] then 0
    else Observations(actions[..|actions| - 1]) + if actions[|actions| - 1].Observe? then 1 else 0
  }

  // The timeout does not elapse and the transaction does not fail.
  ghost predicate Undisturbed(actions: seq<Action>) {
    forall i :: 0 <= i < |actions| ==> !actions[i].Expire? && !(actions[i].Confirm? && actions[i].receipt.Err?)
  }

  // While it listens, the waiter moves on by one event an observation, at least up to `target`.
  ghost predicate CaughtUp(s: State, from: nat, observations: nat, target: nat) {
    && (s.waiter.Listening? || s.waiter.Delivered?)
    && target <= |s.log|
    && (s.waiter.Listening? ==> s.waiter.next >= from + observations || s.waiter.next >= target)
  }

  lemma ActionsCatchUp(op: Operation, s: State, a: Action, from: nat, observations: nat, target: nat)
    requires Sound(op, s)
    requires !a.Expire? && !(a.Confirm? && a.receipt.Err?)
    requires CaughtUp(s, from, observations, target)
    ensures CaughtUp(Act(op, s, a), from, observations + if a.Observe? then 1 else 0, target)
    ensures s.log <= Act(op, s, a).log
    ensures Act(op, s, a).subscribedAt == s.subscribedAt
  {}

  lemma {:induction false} WaitersCatchUp(op: Operation, before: seq<Action>, later: seq<Action>, from: nat)
    requires Undisturbed(later)
    requires CaughtUp(Run(op, before), from, 0, |Run(op, before).log|)
    ensures CaughtUp(Run(op, before + later), from, Observations(later), |Run(op, before).log|)
    ensures Run(op, before).log <= Run(op, before + later).log
    ensures Run(op, before + later).subscribedAt == Run(op, before).subscribedAt
    decreases |later|
  {
    hide Act, Sound, CaughtUp;
    if later == [] {
      assert before + later == before;
    } else {
      var n := |later| - 1;
      assert before + later == before + later[..n] + [later[n]];
      assert Undisturbed(later[..n]);
      WaitersCatchUp(op, before, later[..n], from);
      var s := Run(op, before + later[..n]);
      RunAppends(op, before + later[..n], later[n]);
      EveryRunIsSound(op, before + later[..n]);
      ActionsCatchUp(op, s, later[n], from, Observations(later[..n]), |Run(op, before).log|);
    }
  }

  // No lost confirmation: from the subscription on, submitted or not, a matching event emitted while
  // the waiter listens reaches it as soon as it has worked off its backlog, unless the timeout elapses
  // or the transaction fails before.
  lemma NoLostConfirmation(op: Operation, before: seq<Action>, e: ChainEvent, later: seq<Action>)
    requires Matches(op, e)
    requires Run(op, before).waiter.Listening?
    requires Undisturbed(later)
    requires Observations(later) >= |Run(op, before).log| + 1 - Run(op, before).waiter.next
    ensures var w := Run(op, before + [Emit(e)] + later).waiter;
      w.Delivered? && Matches(op, w.event)
  {
    var s := Run(op, before);
    EveryRunIsSound(op, before);
    RunAppends(op, before, Emit(e));
    WaitersCatchUp(op, before + [Emit(e)], later, s.waiter.next);
    EveryRunIsSound(op, before + [Emit(e)] + later);
    var t := Run(op, before + [Emit(e)] + later);
    assert t.log[|s.log|] == e;
  }

  function Emitted(actions: seq<Action>): seq<ChainEvent> {
    if actions == [] then []
    else
      var last := actions[|actions| - 1];
      Emitted(actions[..|actions| - 1]) + if last.Emit? then [last.event] else []
  }

  lemma {:induction false} LogIsWhatWasEmitted(op: Operation, actions: seq<Action>)
    ensures Run(op, actions).log == Emitted(actions)
  {
    if actions != [] {
      LogIsWhatWasEmitted(op, actions[..|actions| - 1]);
    }
  }

  // ---- How far a run has come, read off its actions alone ----

  // The position of the first action of a kind from `from` on, or the number of actions.
  ghost function FirstOf(actions: seq<Action>, from: nat, kind: Action -> bool): (k: nat)
    ensures k <= |actions|
    ensures k < |actions| ==> from <= k && kind(actions[k])
    ensures forall j :: from <= j < k ==> !kind(actions[j])
    decreases |actions| - from
  {
    if from >= |actions| then |actions|
    else if kind(actions[from]) then from
    else FirstOf(actions, from + 1, kind)
  }

  lemma {:induction false} FirstOfAppended(actions: seq<Action>, a: Action, from: nat, kind: Action -> bool)
    requires from <= |actions|
    ensures FirstOf(actions + [a], from, kind)
         == if FirstOf(actions, from, kind) < |actions| then FirstOf(actions, from, kind)
            else if kind(a) then |actions|
            else |actions| + 1
    decreases |actions| - from
  {
    assert from < |actions| ==> (actions + [a])[from] == actions[from];
    if from < |actions| && !kind(actions[from]) {
      FirstOfAppended(actions, a, from + 1, kind);
    }
  }

  predicate IsResolve(a: Action) { a.Resolve? }

  predicate IsSubscribe(a: Action) { a.Subscribe? }

  predicate IsSubmit(a: Action) { a.Submit? }

  predicate IsConfirm(a: Action) { a.Confirm? }

  // The positions of the subscription and the submission, as far as they succeeded, and the receipt;
  // or the error of the first stage that failed.
  datatype Stage =
    | Starting
    | Resolved
    | Subscribed(subscription: nat)
    | Submitted(subscription: nat, submission: nat)
    | Confirmed(subscription: nat, submission: nat, tx: TxHash)
    | Failed(code: nat, subscribed: Option<nat>, submitted: Option<nat>)

  // Each stage is decided by the first action of its kind after the stage before it succeeded.
  ghost function StageOf(actions: seq<Action>): Stage {
    var r := FirstOf(actions, 0, IsResolve);
    if r == |actions| then Starting
    else
      match actions[r].error
      case Some(code) => Failed(code, None, None)
      case None => StageFromResolution(actions, r + 1)
  }

  ghost function StageFromResolution(actions: seq<Action>, from: nat): Stage
    requires from <= |actions|
  {
    var s := FirstOf(actions, from, IsSubscribe);
    if s == |actions| then Resolved
    else
      match actions[s].error
      case Some(code) => Failed(code, None, None)
      case None => StageFromSubscription(actions, s)
  }

  ghost function StageFromSubscription(actions: seq<Action>, s: nat): Stage
    requires s < |actions|
  {
    var u := FirstOf(actions, s + 1, IsSubmit);
    if u == |actions| then Subscribed(s)
    else
      match actions[u].error
      case Some(code) => Failed(code, Some(s), None)
      case None => StageFromSubmission(actions, s, u)
  }

  ghost function StageFromSubmission(actions: seq<Action>, s: nat, u: nat): Stage
    requires u < |actions|
  {
    var c := FirstOf(actions, u + 1, IsConfirm);
    if c == |actions| then Submitted(s, u)
    else
      match actions[c].receipt
      case Err(code) => Failed(code, Some(s), Some(u))
      case Ok(tx) => Confirmed(s, u, tx)
  }

  ghost function Advance(stage: Stage, n: nat, a: Action): Stage {
    match stage
    case Starting =>
      if !a.Resolve? then stage else if a.error.Some? then Failed(a.error.value, None, None) else Resolved
    case Resolved =>
      if !a.Subscribe? then stage else if a.error.Some? then Failed(a.error.value, None, None) else Subscribed(n)
    case Subscribed(s) =>
      if !a.Submit? then stage else if a.error.Some? then Failed(a.error.value, Some(s), None) else Submitted(s, n)
    case Submitted(s, u) =>
      if !a.Confirm? then stage
      else if a.receipt.Err? then Failed(a.receipt.error, Some(s), Some(u))
      else Confirmed(s, u, a.receipt.value)
    case Confirmed(_, _, _) => stage
    case Failed(_, _, _) => stage
  }

  lemma AdvanceFromSubmission(actions: seq<Action>, a: Action, s: nat, u: nat)
    requires u < |actions|
    ensures StageFromSubmission(actions + [a], s, u) == Advance(StageFromSubmission(actions, s, u), |actions|, a)
  {
    hide FirstOf;
    FirstOfAppended(actions, a, u + 1, IsConfirm);
  }

  lemma AdvanceFromSubscription(actions: seq<Action>, a: Action, s: nat)
    requires s < |actions|
    ensures StageFromSubscription(actions + [a], s) == Advance(StageFromSubscription(actions, s), |actions|, a)
  {
    hide FirstOf, StageFromSubmission;
    FirstOfAppended(actions, a, s + 1, IsSubmit);
    var u := FirstOf(actions, s + 1, IsSubmit);
    if u < |actions| {
      AdvanceFromSubmission(actions, a, s, u);
    } else {
      NothingAfterTheSubmission(actions + [a], s);
    }
  }

  lemma NothingAfterTheSubmission(actions: seq<Action>, s: nat)
    requires actions != []
    ensures StageFromSubmission(actions, s, |actions| - 1) == Submitted(s, |actions| - 1)
  {}

  lemma AdvanceFromResolution(actions: seq<Action>, a: Action, from: nat)
    requires from <= |actions|
    ensures StageFromResolution(actions + [a], from) == Advance(StageFromResolution(actions, from), |actions|, a)
  {
    hide FirstOf, StageFromSubscription;
    FirstOfAppended(actions, a, from, IsSubscribe);
    var s := FirstOf(actions, from, IsSubscribe);
    if s < |actions| {
      AdvanceFromSubscription(actions, a, s);
    } else {
      NothingAfterTheSubscription(actions + [a]);
    }
  }

  lemma NothingAfterTheSubscription(actions: seq<Action>)
    requires actions != []
    ensures StageFromSubscription(actions, |actions| - 1) == Subscribed(|actions| - 1)
  {}

  lemma StagesAdvance(actions: seq<Action>, a: Action)
    ensures StageOf(actions + [a]) == Advance(StageOf(actions), |actions|, a)
  {
    hide FirstOf, StageFromResolution;
    FirstOfAppended(actions, a, 0, IsResolve);
    var r := FirstOf(actions, 0, IsResolve);
    if r < |actions| {
      AdvanceFromResolution(actions, a, r + 1);
    } else {
      NothingAfterTheResolution(actions + [a]);
    }
  }

  lemma NothingAfterTheResolution(actions: seq<Action>)
    ensures StageFromResolution(actions, |actions|) == Resolved
  {}

  // The positions of a subscription and a submission that succeeded.
  ghost function SubscriptionOf(stage: Stage): Option<nat> {
    match stage
    case Starting => None
    case Resolved => None
    case Subscribed(s) => Some(s)
    case Submitted(s, _) => Some(s)
    case Confirmed(s, _, _) => Some(s)
    case Failed(_, subscribed, _) => subscribed
  }

  ghost function SubmissionOf(stage: Stage): Option<nat> {
    match stage
    case Submitted(_, u) => Some(u)
    case Confirmed(_, u, _) => Some(u)
    case Failed(_, _, submitted) => submitted
    case _ => None
  }

  // The phase and the receipt a stage stands for; once confirmed, the event waiter decides the rest.
  ghost predicate PhaseFits(s: State, stage: Stage) {
    match stage
    case Starting => s.phase.Resolving? && s.tx.None?
    case Resolved => s.phase.Subscribing? && s.tx.None?
    case Subscribed(_) => s.phase.Submitting? && s.tx.None?
    case Submitted(_, _) => s.phase.Confirming? && s.tx.None?
    case Confirmed(_, _, tx) =>
      && s.tx == Some(tx)
      && (s.phase.AwaitingEvent?
          || (s.phase.Done? && (if s.phase.outcome.Ok? then s.phase.outcome.value.0 == tx else s.phase.outcome.error == TIMED_OUT)))
    case Failed(code, _, _) => s.phase == Done(Err(ChainFault(code))) && s.tx.None?
  }

  // The length of the event log when the action at a position was taken.
  ghost function LogAt(actions: seq<Action>, position: Option<nat>): Option<nat> {
    match position
    case Some(k) => if k < |actions| then Some(|Emitted(actions[..k])|) else None
    case None => None
  }

  ghost predicate InRange(position: Option<nat>, n: nat) {
    position.Some? ==> position.value < n
  }

  // The state of a run as its stage determines it.
  ghost predicate InStage(s: State, actions: seq<Action>, stage: Stage) {
    && PhaseFits(s, stage)
    && InRange(SubscriptionOf(stage), |actions|) && InRange(SubmissionOf(stage), |actions|)
    && s.subscribedAt == LogAt(actions, SubscriptionOf(stage))
    && s.submittedAt == LogAt(actions, SubmissionOf(stage))
  }

  lemma LogAtAppended(actions: seq<Action>, a: Action, position: Option<nat>)
    ensures InRange(position, |actions|) ==> LogAt(actions + [a], position) == LogAt(actions, position)
    ensures LogAt(actions + [a], Some(|actions|)) == Some(|Emitted(actions)|)
  {
    hide Emitted;
    assert (actions + [a])[..|actions|] == actions;
    if position.Some? && position.value < |actions| {
      assert (actions + [a])[..position.value] == actions[..position.value];
    }
  }

  lemma PhasesFollowTheStage(op: Operation, s: State, n: nat, a: Action, stage: Stage)
    requires Sound(op, s) && PhaseFits(s, stage)
    ensures var t, next := Act(op, s, a), Advance(stage, n, a);
      && PhaseFits(t, next)
      && ((t.subscribedAt == s.subscribedAt && SubscriptionOf(next) == SubscriptionOf(stage))
          || (t.subscribedAt == Some(|s.log|) && SubscriptionOf(next) == Some(n)))
      && ((t.submittedAt == s.submittedAt && SubmissionOf(next) == SubmissionOf(stage))
          || (t.submittedAt == Some(|s.log|) && SubmissionOf(next) == Some(n)))
  {
    ActionsKeepSound(op, s, a);
    hide Matches, OutputOf, WaiterSound;
  }

  // Every run is in the stage its actions determine: it subscribed and submitted at those positions of
  // the event log, holds that receipt, and a failed stage is its outcome.
  lemma {:induction false} EveryRunIsInItsStage(op: Operation, actions: seq<Action>)
    ensures InStage(Run(op, actions), actions, StageOf(actions))
  {
    if actions != [] {
      hide Act, Sound, Emitted, StageOf, Advance, LogAt, PhaseFits, SubscriptionOf, SubmissionOf;
      var init, last := actions[..|actions| - 1], actions[|actions| - 1];
      assert actions == init + [last];
      EveryRunIsInItsStage(op, init);
      EveryRunIsSound(op, init);
      LogIsWhatWasEmitted(op, init);
      StagesAdvance(init, last);
      var stage := StageOf(init);
      PhasesFollowTheStage(op, Run(op, init), |init|, last, stage);
      LogAtAppended(init, last, SubscriptionOf(stage));
      LogAtAppended(init, last, SubmissionOf(stage));
    }
  }

  lemma StagesAreActions(actions: seq<Action>)
    ensures var stage := StageOf(actions);
      && (SubscriptionOf(stage).Some? ==>
            SubscriptionOf(stage).value < |actions| && actions[SubscriptionOf(stage).value] == Subscribe(None))
      && (SubmissionOf(stage).Some? ==>
            && SubmissionOf(stage).value < |actions| && actions[SubmissionOf(stage).value] == Submit(None)
            && SubscriptionOf(stage).Some? && SubscriptionOf(stage).value < SubmissionOf(stage).value)
  {
    hide FirstOf;
    var r := FirstOf(actions, 0, IsResolve);
    if r < |actions| && actions[r].error.None? {
      var s := FirstOf(actions, r + 1, IsSubscribe);
      assert s < |actions| && actions[s].error.None? ==> actions[s] == Subscribe(None);
    }
  }

  // A submitted operation had subscribed by an earlier action, and so at an earlier or equal position of
  // the event log, and has had a waiter since.
  lemma SubscriptionPrecedesSubmission(op: Operation, actions: seq<Action>, u: nat)
    requires SubmissionOf(StageOf(actions)) == Some(u)
    ensures exists k: nat :: k < u < |actions|
              && actions[k] == Subscribe(None) && actions[u] == Submit(None)
              && Run(op, actions).subscribedAt == Some(|Emitted(actions[..k])|)
              && Run(op, actions).submittedAt == Some(|Emitted(actions[..u])|)
              && |Emitted(actions[..k])| <= |Emitted(actions[..u])|
    ensures !Run(op, actions).waiter.NotSubscribed?
  {
    hide StageOf, Emitted, PhaseFits, FirstMatch;
    StagesAreActions(actions);
    EveryRunIsInItsStage(op, actions);
    EveryRunIsSound(op, actions);
    var k := SubscriptionOf(StageOf(actions)).value;
    assert k < u && actions[k] == Subscribe(None);
  }

  // ---- What success means ----

  // The events that complete an operation, kind by kind.
  ghost predicate Completes(op: Operation, e: ChainEvent) {
    match e
    case ChannelOpened(c) => op.OpenChannel? && c.source == op.me && c.destination == op.destination
    case ChannelBalanceIncreased(c, amount) => op.FundChannel? && c.Id() == op.id && amount == op.amount
    case ChannelClosureInitiated(c) => op.CloseChannel? && c.Id() == op.id
    case ChannelClosed(c) => op.CloseChannel? && c.Id() == op.id
    case ChannelBalanceDecreased(_, _) => false
    case OtherEvent => false
  }

  // What the operation reports of the event that completed it.
  ghost predicate Reports(op: Operation, e: ChainEvent, output: Output) {
    match op
    case OpenChannel(me, destination) => output == NewChannel(IdOf(me, destination))
    case FundChannel(_, _) => output == NoOutput
    case CloseChannel(_) =>
      match e
      case ChannelClosureInitiated(c) => output == NewStatus(c.status)
      case ChannelClosed(c) => output == NewStatus(c.status)
      case _ => false
  }

  // The operations wait for exactly the events that complete them.
  lemma OperationsAwaitTheirEvents(op: Operation, e: ChainEvent)
    ensures Matches(op, e) <==> Completes(op, e)
    ensures Completes(op, e) ==> OutputOf(op, e).Some? && forall output :: Reports(op, e, output) <==> OutputOf(op, e) == Some(output)
  {}

  // A waiter that is up to date is completed by the very next event, or goes on listening behind it.
  lemma NextEventDecides(op: Operation, actions: seq<Action>, e: ChainEvent)
    requires Run(op, actions).waiter == Listening(|Emitted(actions)|)
    ensures Run(op, actions + [Emit(e), Observe]).waiter
         == if Completes(op, e) then Delivered(e) else Listening(|Emitted(actions)| + 1)
  {
    hide Completes, Matches;
    LogIsWhatWasEmitted(op, actions);
    OperationsAwaitTheirEvents(op, e);
    assert actions + [Emit(e), Observe] == actions + [Emit(e)] + [Observe];
    RunAppends(op, actions, Emit(e));
    RunAppends(op, actions + [Emit(e)], Observe);
  }

  lemma {:induction false} EmittedSomewhere(actions: seq<Action>, i: nat)
    requires i < |Emitted(actions)|
    ensures exists m :: 0 <= m < |actions| && actions[m] == Emit(Emitted(actions)[i]) && |Emitted(actions[..m])| == i
  {
    var n := |actions| - 1;
    var init := actions[..n];
    if i < |Emitted(init)| {
      EmittedSomewhere(init, i);
      var m :| 0 <= m < |init| && init[m] == Emit(Emitted(init)[i]) && |Emitted(init[..m])| == i;
      assert init[..m] == actions[..m];
      assert actions[m] == Emit(Emitted(actions)[i]);
    } else {
      assert actions[n] == Emit(Emitted(actions)[i]) && |Emitted(actions[..n])| == i;
    }
  }

  lemma {:induction false} EmittedBefore(actions: seq<Action>, j: nat, k: nat)
    requires j <= k <= |actions|
    ensures Emitted(actions[..j]) <= Emitted(actions[..k])
    ensures j < k && actions[j].Emit? ==>
              |Emitted(actions[..j])| < |Emitted(actions[..k])|
              && Emitted(actions[..k])[|Emitted(actions[..j])|] == actions[j].event
    decreases k
  {
    if j < k {
      assert actions[..k][..k - 1] == actions[..k - 1];
      EmittedBefore(actions, j, k - 1);
    }
  }

  // The first emission after position s that completes the operation.
  ghost predicate FirstCompletion(op: Operation, actions: seq<Action>, s: nat, m: nat) {
    && s < m < |actions| && actions[m].Emit? && Completes(op, actions[m].event)
    && forall j :: s < j < m && actions[j].Emit? ==> !Completes(op, actions[j].event)
  }

  lemma FirstMatchIsFirstCompletion(op: Operation, actions: seq<Action>, s: nat, e: ChainEvent)
    requires s < |actions| && !actions[s].Emit?
    requires FirstMatch(op, Emitted(actions), |Emitted(actions[..s])|, e)
    ensures exists m: nat :: FirstCompletion(op, actions, s, m) && actions[m].event == e
  {
    hide Completes, Matches, Emitted;
    var log, from := Emitted(actions), |Emitted(actions[..s])|;
    var i :| from <= i < |log| && log[i] == e && Matches(op, e) && NoMatchIn(op, log, from, i);
    EmittedSomewhere(actions, i);
    var m: nat :| m < |actions| && actions[m] == Emit(log[i]) && |Emitted(actions[..m])| == i;
    OperationsAwaitTheirEvents(op, e);
    if m < s {
      EmittedBefore(actions, m, s);
    }
    forall j | s < j < m && actions[j].Emit? ensures !Completes(op, actions[j].event) {
      assert actions[..|actions|] == actions;
      EmittedBefore(actions, s, j);
      EmittedBefore(actions, j, m);
      EmittedBefore(actions, j, |actions|);
      assert log[|Emitted(actions[..j])|] == actions[j].event;
      OperationsAwaitTheirEvents(op, actions[j].event);
    }
    assert FirstCompletion(op, actions, s, m);
  }

  // Success means that the operation resolved, subscribed, submitted and was confirmed with that very
  // transaction, in this order, and reports the first completing event emitted after its subscription.
  lemma SuccessIsConfirmed(op: Operation, actions: seq<Action>, tx: TxHash, output: Output)
    requires Run(op, actions).phase == Done(Ok((tx, output)))
    ensures var stage := StageOf(actions);
      && stage.Confirmed? && stage.tx == tx
      && exists m: nat :: FirstCompletion(op, actions, stage.subscription, m) && Reports(op, actions[m].event, output)
  {
    hide StageOf, Emitted, FirstMatch, Completes, Matches, OutputOf;
    EveryRunIsInItsStage(op, actions);
    EveryRunIsSound(op, actions);
    LogIsWhatWasEmitted(op, actions);
    var s, stage := Run(op, actions), StageOf(actions);
    StagesAreActions(actions);
    FirstMatchIsFirstCompletion(op, actions, stage.subscription, s.waiter.event);
    OperationsAwaitTheirEvents(op, s.waiter.event);
  }

  // A closure reports the status carried by an event of its own channel, and never hits the
  // unreachable arm.
  lemma ClosureReportsItsEvent(id: ChannelId, actions: seq<Action>)
    ensures !Run(CloseChannel(id), actions).phase.Panicked?
    ensures var s := Run(CloseChannel(id), actions);
      s.phase.Done? && s.phase.outcome.Ok? ==>
        exists e :: e in Emitted(actions) && (e.ChannelClosed? || e.ChannelClosureInitiated?) && e.channel.Id() == id
                    && s.phase.outcome.value.1 == NewStatus(e.channel.status)
  {
    EveryRunIsSound(CloseChannel(id), actions);
    LogIsWhatWasEmitted(CloseChannel(id), actions);
  }

  // An opening reports its channel id after an opening event of that channel; a funding reports
  // nothing after an increase of exactly its amount in its channel.
  lemma OpeningsAndFundingsReportTheirEvent(op: Operation, actions: seq<Action>, tx: TxHash, output: Output)
    requires Run(op, actions).phase == Done(Ok((tx, output)))
    ensures op.OpenChannel? ==>
              && output == NewChannel(IdOf(op.me, op.destination))
              && exists c :: Emit(ChannelOpened(c)) in actions && c.source == op.me && c.destination == op.destination
    ensures op.FundChannel? ==>
              && output == NoOutput
              && exists c :: Emit(ChannelBalanceIncreased(c, op.amount)) in actions && c.Id() == op.id
  {
    hide Run, StageOf;
    SuccessIsConfirmed(op, actions, tx, output);
    var m: nat :| FirstCompletion(op, actions, StageOf(actions).subscription, m) && Reports(op, actions[m].event, output);
    assert actions[m] in actions && actions[m] == Emit(actions[m].event);
    if op.OpenChannel? {
      assert actions[m].event == ChannelOpened(actions[m].event.channel);
    } else if op.FundChannel? {
      assert actions[m].event == ChannelBalanceIncreased(actions[m].event.channel, op.amount);
    }
  }

  // A confirmed operation that waits for its event ends in success exactly when the event beat the
  // timeout; while neither came it keeps waiting.
  lemma ReceiveDecides(op: Operation, actions: seq<Action>)
    requires Run(op, actions).phase.AwaitingEvent?
    ensures var s, t := Run(op, actions), Run(op, actions + [Receive]);
      && (t.phase.Done? && t.phase.outcome.Ok? <==> s.waiter.Delivered?)
      && (t.phase == Done(Err(TIMED_OUT)) <==> s.waiter.TimedOut?)
      && (t == s <==> s.waiter.Listening?)
  {
    EveryRunIsSound(op, actions);
    EveryRunIsSound(op, actions + [Receive]);
    RunAppends(op, actions, Receive);
  }

  lemma {:induction false} TimedOutStays(op: Operation, actions: seq<Action>, more: seq<Action>)
    requires Run(op, actions).waiter.TimedOut?
    ensures Run(op, actions + more).waiter.TimedOut?
    decreases |more|
  {
    if more == [] {
      assert actions + more == actions;
    } else {
      var n := |more| - 1;
      assert actions + more == actions + more[..n] + [more[n]];
      TimedOutStays(op, actions, more[..n]);
      RunAppends(op, actions + more[..n], more[n]);
      EveryRunIsSound(op, actions + more[..n]);
    }
  }

  // When the timeout elapses while the waiter listens, no later event counts: an operation that still
  // waits for its event ends with that timeout.
  lemma TimeoutsDecide(op: Operation, before: seq<Action>, later: seq<Action>)
    requires Run(op, before).waiter.Listening?
    ensures Run(op, before + [Expire] + later).waiter.TimedOut?
    ensures Run(op, before + [Expire] + later).phase.AwaitingEvent? ==>
              Run(op, before + [Expire] + later + [Receive]).phase == Done(Err(TIMED_OUT))
  {
    RunAppends(op, before, Expire);
    TimedOutStays(op, before + [Expire], later);
    if Run(op, before + [Expire] + later).phase.AwaitingEvent? {
      ReceiveDecides(op, before + [Expire] + later);
    }
  }

  // So a submitted and confirmed operation succeeds once its event was emitted and worked off in time.
  lemma ConfirmedOperationsSucceed(op: Operation, before: seq<Action>, e: ChainEvent, later: seq<Action>)
    requires Matches(op, e)
    requires Run(op, before).waiter.Listening?
    requires Undisturbed(later)
    requires Observations(later) >= |Run(op, before).log| + 1 - Run(op, before).waiter.next
    requires Run(op, before + [Emit(e)] + later).phase.AwaitingEvent?
    ensures var t := Run(op, before + [Emit(e)] + later + [Receive]);
      t.phase.Done? && t.phase.outcome.Ok?
  {
    NoLostConfirmation(op, before, e, later);
    ReceiveDecides(op, before + [Emit(e)] + later);
  }

  // A failed confirmation ends the operation and stops the waiter: nothing keeps listening.
  lemma FailedConfirmationAborts(op: Operation, actions: seq<Action>, code: nat)
    requires Run(op, actions).phase.Confirming?
    ensures var s, t := Run(op, actions), Run(op, actions + [Confirm(Err(code))]);
      && t.phase == Done(Err(ChainFault(code)))
      && !t.waiter.Listening?
      && (t.waiter.Aborted? <==> s.waiter.Listening?)
  {
    EveryRunIsSound(op, actions);
    RunAppends(op, actions, Confirm(Err(code)));
  }

  // Of the error paths, a failed submission returns without aborting: the waiter stays as it was.
  lemma FailedSubmissionKeepsTheWaiter(op: Operation, actions: seq<Action>, code: nat)
    requires Run(op, actions).phase.Submitting?
    ensures var s, t := Run(op, actions), Run(op, actions + [Submit(Some(code))]);
      t.phase == Done(Err(ChainFault(code))) && t.waiter == s.waiter && !s.waiter.NotSubscribed?
  {
    EveryRunIsSound(op, actions);
    RunAppends(op, actions, Submit(Some(code)));
  }

  // An ended operation leaves a listening waiter behind exactly if it had subscribed, did not get to
  // submit, and neither an event nor the timeout had reached the waiter.
  lemma EndedOperationsLeaveAWaiter(op: Operation, actions: seq<Action>)
    requires Run(op, actions).phase.Done?
    ensures var s := Run(op, actions);
      s.waiter.Listening?
      <==> s.subscribedAt.Some? && s.submittedAt.None? && !s.waiter.Delivered? && !s.waiter.TimedOut?
  {
    EveryRunIsSound(op, actions);
  }

  // The shortest such run.
  lemma FailedSubmissionLeavesTheWaiter(op: Operation, code: nat)
    ensures var s := Run(op, [Resolve(None), Subscribe(None), Submit(Some(code))]);
      s.phase == Done(Err(ChainFault(code))) && s.waiter.Listening?
  {
    RunAppends(op, [], Resolve(None));
    RunAppends(op, [Resolve(None)], Subscribe(None));
    RunAppends(op, [Resolve(None), Subscribe(None)], Submit(Some(code)));
    assert [] + [Resolve(None)] == [Resolve(None)];
    assert [Resolve(None)] + [Subscribe(None)] == [Resolve(None), Subscribe(None)];
    assert [Resolve(None), Subscribe(None)] + [Submit(Some(code))] == [Resolve(None), Subscribe(None), Submit(Some(code))];
  }

  // The position of the event a successful operation reports.
  ghost predicate ReportedAt(op: Operation, s: State, i: nat) {
    && s.subscribedAt.Some? && s.waiter.Delivered?
    && s.subscribedAt.value <= i < |s.log| && s.log[i] == s.waiter.event && Matches(op, s.log[i])
    && NoMatchIn(op, s.log, s.subscribedAt.value, i)
  }

  // The reported event follows the submission exactly if no matching event fell between subscription
  // and submission; otherwise an equal event of someone else is reported.
  lemma ReportedEventFollowsSubmission(op: Operation, actions: seq<Action>, i: nat)
    requires Run(op, actions).phase.Done? && Run(op, actions).phase.outcome.Ok?
    requires ReportedAt(op, Run(op, actions), i)
    ensures var s := Run(op, actions);
      && s.subscribedAt.Some? && s.submittedAt.Some?
      && OutputOf(op, s.log[i]) == Some(s.phase.outcome.value.1)
      && (i >= s.submittedAt.value <==> NoMatchIn(op, s.log, s.subscribedAt.value, s.submittedAt.value))
  {
    EveryRunIsSound(op, actions);
  }

  // There is always exactly one such position.
  lemma OneEventIsReported(op: Operation, actions: seq<Action>)
    requires Run(op, actions).phase.Done? && Run(op, actions).phase.outcome.Ok?
    ensures exists i :: ReportedAt(op, Run(op, actions), i)
    ensures forall i, j :: ReportedAt(op, Run(op, actions), i) && ReportedAt(op, Run(op, actions), j) ==> i == j
  {
    EveryRunIsSound(op, actions);
    var s := Run(op, actions);
    var i :| s.subscribedAt.value <= i < |s.log| && s.log[i] == s.waiter.event && Matches(op, s.waiter.event)
             && NoMatchIn(op, s.log, s.subscribedAt.value, i);
    assert ReportedAt(op, s, i);
  }

  // It does happen that the reported event precedes the submission.
  lemma EventMayPrecedeSubmission(op: Operation, e: ChainEvent, tx: TxHash)
    requires Matches(op, e)
    ensures var s := Run(op, [Resolve(None), Subscribe(None), Emit(e), Observe, Submit(None), Confirm(Ok(tx)), Receive]);
      && s.phase.Done? && s.phase.outcome.Ok?
      && s.submittedAt.Some? && NoMatchIn(op, s.log, s.submittedAt.value, |s.log|)
  {
    var a := [Resolve(None), Subscribe(None), Emit(e), Observe, Submit(None), Confirm(Ok(tx)), Receive];
    assert a[..6][..5] == a[..5] && a[..5][..4] == a[..4] && a[..4][..3] == a[..3];
    assert a[..3][..2] == a[..2] && a[..2][..1] == a[..1] && a[..1][..0] == [];
    assert Run(op, a[..1]) == INITIAL.(phase := Subscribing);
    assert Run(op, a[..2]) == Act(op, Run(op, a[..1]), a[1]);
    assert Run(op, a[..3]) == Act(op, Run(op, a[..2]), a[2]);
    assert Run(op, a[..4]) == Act(op, Run(op, a[..3]), a[3]);
    assert Run(op, a[..5]) == Act(op, Run(op, a[..4]), a[4]);
    assert Run(op, a[..6]) == Act(op, Run(op, a[..5]), a[5]);
  }
}
