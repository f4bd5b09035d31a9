// The default batch operations of the deposit pool (src/chain/deposit_pool.rs): one future per
// input, driven concurrently by `join_all`.
//
// The single operations are arbitrary: `poll` advances one call over a pool shared by all of them
// and either suspends or returns. The scheduler may poll the futures in any order.
module DepositBatches {
  import opened Wrappers

  type AllocationId = nat
  type PublicKey = nat
  type SecretKey = nat
  type ChainAddress = nat
  type Amount = nat
  type DepositData = nat
  type Receipt = nat
  type PoolError = nat

  datatype Call =
    | DepositFundsTo(id: AllocationId, dst: PublicKey, amount: Amount, data: DepositData)
    | WithdrawDeposit(id: AllocationId, key: SecretKey, to: ChainAddress, partial: Option<Amount>)
    | PoolTransfer(source: AllocationId, key: SecretKey, dstId: AllocationId, dst: PublicKey, data: DepositData,
                   partial: Option<Amount>)

  // A call, and the id its receipt is paired with.
  datatype Future = Future(call: Call, id: AllocationId)

  datatype Deposit = Deposit(id: AllocationId, dst: PublicKey, amount: Amount, data: DepositData)

  datatype Key = Key(id: AllocationId, secret: SecretKey)

  function DepositFutures(deposits: seq<Deposit>): seq<Future> {
    seq(|deposits|, i requires 0 <= i < |deposits| =>
      Future(DepositFundsTo(deposits[i].id, deposits[i].dst, deposits[i].amount, deposits[i].data), deposits[i].id))
  }

  function WithdrawFutures(keys: seq<Key>, to: ChainAddress): seq<Future> {
    seq(|keys|, i requires 0 <= i < |keys| => Future(WithdrawDeposit(keys[i].id, keys[i].secret, to, None), keys[i].id))
  }

  function TransferFutures(keys: seq<Key>, dstId: AllocationId, dst: PublicKey, data: DepositData): seq<Future> {
    seq(|keys|, i requires 0 <= i < |keys| =>
      Future(PoolTransfer(keys[i].id, keys[i].secret, dstId, dst, data, None), keys[i].id))
  }

  type Returned = Result<Receipt, PoolError>

  type Outcome = Result<(AllocationId, Receipt), PoolError>

  datatype Progress<L> = Suspended(local: L) | Ready(returned: Returned)

  // How the pool's operations behave: the state a call starts in, and one poll of it.
  datatype Behaviour<!P, !L> = Behaviour(begin: Call -> L, poll: (P, Call, L) -> (P, Progress<L>))

  datatype Task<L> = Unpolled | Running(local: L) | Finished(returned: Returned)

  // `attempts` records the calls in the order in which the pool saw them begin.
  datatype Batch<P, L> = Batch(pool: P, tasks: seq<Task<L>>, attempts: seq<(nat, Call)>)

  function Launch<P, L>(pool: P, futures: seq<Future>): Batch<P, L> {
    Batch(pool, seq(|futures|, i => Unpolled), [])
  }

  function PollFrom<P, L>(b: Behaviour<P, L>, s: Batch<P, L>, i: nat, call: Call, local: L): Batch<P, L>
    requires i < |s.tasks|
  {
    var (pool, progress) := b.poll(s.pool, call, local);
    var task := match progress case Suspended(l) => Running(l) case Ready(r) => Finished(r);
    s.(pool := pool, tasks := s.tasks[i := task])
  }

  function Poll<P, L>(b: Behaviour<P, L>, futures: seq<Future>, s: Batch<P, L>, i: nat): Batch<P, L> {
    if i >= |s.tasks| || i >= |futures| then s
    else
      match s.tasks[i]
      case Unpolled =>
        PollFrom(b, s.(attempts := s.attempts + [(i, futures[i].call)]), i, futures[i].call, b.begin(futures[i].call))
      case Running(local) => PollFrom(b, s, i, futures[i].call, local)
      case Finished(_) => s
  }

  function Run<P, L>(b: Behaviour<P, L>, pool: P, futures: seq<Future>, schedule: seq<nat>): Batch<P, L> {
    if schedule == [] then Launch(pool, futures)
    else Poll(b, futures, Run(b, pool, futures, schedule[..|schedule| - 1]), schedule[|schedule| - 1])
  }

  predicate AllFinished<P, L>(s: Batch<P, L>) {
    forall i :: 0 <= i < |s.tasks| ==> s.tasks[i].Finished?
  }

  // `map(|receipt| (id, receipt))`
  function Paired(id: AllocationId, returned: Returned): Outcome {
    match returned
    case Ok(receipt) => Ok((id, receipt))
    case Err(e) => Err(e)
  }

  // What `join_all` resolves to: the outputs at the positions of their futures.
  function Joined<P, L>(futures: seq<Future>, s: Batch<P, L>): seq<Outcome>
    requires AllFinished(s) && |s.tasks| == |futures|
  {
    seq(|futures|, i requires 0 <= i < |futures| => Paired(futures[i].id, s.tasks[i].returned))
  }

  function Attempts(attempts: seq<(nat, Call)>, i: nat): nat {
    if attempts == [] then 0
    else Attempts(attempts[..|attempts| - 1], i) + if attempts[|attempts| - 1].0 == i then 1 else 0
  }

  // A call begins at the first poll of its future and never again, with that future's arguments.
  ghost predicate Faithful<P, L>(futures: seq<Future>, s: Batch<P, L>) {
    && |s.tasks| == |futures|
    && (forall i :: 0 <= i < |s.tasks| ==> Attempts(s.attempts, i) == if s.tasks[i].Unpolled? then 0 else 1)
    && (forall n :: 0 <= n < |s.attempts| ==>
          s.attempts[n].0 < |futures| && s.attempts[n].1 == futures[s.attempts[n].0].call)
  }

  lemma PollIsFaithful<P, L>(b: Behaviour<P, L>, futures: seq<Future>, s: Batch<P, L>, i: nat)
    requires Faithful(futures, s)
    ensures Faithful(futures, Poll(b, futures, s, i))
  {}

  lemma {:induction false} RunIsFaithful<P, L>(b: Behaviour<P, L>, pool: P, futures: seq<Future>, schedule: seq<nat>)
    ensures Faithful(futures, Run(b, pool, futures, schedule))
  {
    if schedule != [] {
      RunIsFaithful(b, pool, futures, schedule[..|schedule| - 1]);
      PollIsFaithful(b, futures, Run(b, pool, futures, schedule[..|schedule| - 1]), schedule[|schedule| - 1]);
    }
  }

  // Whatever a call returned stays its result, however the others go on.
  lemma {:induction false} ResultsStay<P, L>(b: Behaviour<P, L>, pool: P, futures: seq<Future>, schedule: seq<nat>,
                                            more: seq<nat>, i: nat)
    requires i < |futures|
    requires Faithful(futures, Run(b, pool, futures, schedule))
    requires Run(b, pool, futures, schedule).tasks[i].Finished?
    ensures Faithful(futures, Run(b, pool, futures, schedule + more))
    ensures Run(b, pool, futures, schedule + more).tasks[i] == Run(b, pool, futures, schedule).tasks[i]
    decreases |more|
  {
    RunIsFaithful(b, pool, futures, schedule + more);
    if more == [] {
      assert schedule + more == schedule;
    } else {
      var n := |more| - 1;
      assert (schedule + more)[..|schedule + more| - 1] == schedule + more[..n];
      ResultsStay(b, pool, futures, schedule, more[..n], i);
    }
  }

  // ---- The polls of a run, one after the other on the shared pool ----

  // One poll of call i that took effect: the pool and the local state it found, and what it made of them.
  datatype PollRecord<P, L> = PollRecord(i: nat, before: P, local: L, after: P, progress: Progress<L>)

  function RecordOf<P, L>(b: Behaviour<P, L>, i: nat, call: Call, before: P, local: L): PollRecord<P, L> {
    var (after, progress) := b.poll(before, call, local);
    PollRecord(i, before, local, after, progress)
  }

  ghost function LastPollOf<P, L>(history: seq<PollRecord<P, L>>, i: nat): (k: int)
    ensures -1 <= k < |history|
    ensures k >= 0 ==> history[k].i == i
    ensures forall j :: k < j < |history| ==> history[j].i != i
  {
    if history == [] then -1
    else if history[|history| - 1].i == i then |history| - 1
    else LastPollOf(history[..|history| - 1], i)
  }

  ghost function PoolAfter<P, L>(pool: P, history: seq<PollRecord<P, L>>): P {
    if history == [] then pool else history[|history| - 1].after
  }

  // The polls of a schedule that take effect: all but those of no future and of calls that have returned.
  ghost function History<P, L>(b: Behaviour<P, L>, pool: P, futures: seq<Future>, schedule: seq<nat>): seq<PollRecord<P, L>> {
    if schedule == [] then []
    else
      var before, i := History(b, pool, futures, schedule[..|schedule| - 1]), schedule[|schedule| - 1];
      if i >= |futures| then before
      else
        var k := LastPollOf(before, i);
        if k < 0 then
          before + [RecordOf(b, i, futures[i].call, PoolAfter(pool, before), b.begin(futures[i].call))]
        else
          match before[k].progress
          case Suspended(local) => before + [RecordOf(b, i, futures[i].call, PoolAfter(pool, before), local)]
          case Ready(_) => before
  }

  // Each poll finds the pool the poll before it left, starting from the launch pool, and its call in the
  // local state that call's own last poll left, starting from its beginning. Nothing follows a result.
  ghost predicate Threaded<P, L>(b: Behaviour<P, L>, pool: P, futures: seq<Future>, history: seq<PollRecord<P, L>>) {
    forall k :: 0 <= k < |history| ==> Follows(b, pool, futures, history[..k], history[k])
  }

  ghost predicate Follows<P, L>(b: Behaviour<P, L>, pool: P, futures: seq<Future>, earlier: seq<PollRecord<P, L>>,
                                poll: PollRecord<P, L>)
  {
    && poll.i < |futures|
    && poll.before == (if earlier == [] then pool else earlier[|earlier| - 1].after)
    && b.poll(poll.before, futures[poll.i].call, poll.local) == (poll.after, poll.progress)
    && var own := LastPollOf(earlier, poll.i);
       if own < 0 then poll.local == b.begin(futures[poll.i].call) else earlier[own].progress == Suspended(poll.local)
  }

  // The calls in the order of their first polls.
  ghost function Begun<P, L>(futures: seq<Future>, history: seq<PollRecord<P, L>>): seq<(nat, Call)> {
    if history == [] then []
    else
      var earlier, i := history[..|history| - 1], history[|history| - 1].i;
      Begun(futures, earlier) + if LastPollOf(earlier, i) < 0 && i < |futures| then [(i, futures[i].call)] else []
  }

  // The batch stands where these polls left it: the pool of the last one, of each call what its own last
  // poll made of it, and the calls attempted in the order of their first polls.
  ghost predicate StandsAt<P, L>(s: Batch<P, L>, pool: P, futures: seq<Future>, history: seq<PollRecord<P, L>>) {
    && s.pool == (if history == [] then pool else history[|history| - 1].after)
    && s.attempts == Begun(futures, history)
    && |s.tasks| == |futures|
    && forall i :: 0 <= i < |futures| ==> TaskFits(s.tasks[i], history, i)
  }

  ghost predicate TaskFits<P, L>(task: Task<L>, history: seq<PollRecord<P, L>>, i: nat) {
    var own := LastPollOf(history, i);
    if own < 0 then task.Unpolled?
    else
      match history[own].progress
      case Suspended(local) => task == Running(local)
      case Ready(r) => task == Finished(r)
  }

  lemma LastPollAppended<P, L>(history: seq<PollRecord<P, L>>, poll: PollRecord<P, L>, i: nat)
    ensures LastPollOf(history + [poll], i) == if poll.i == i then |history| else LastPollOf(history, i)
  {
    assert (history + [poll])[..|history|] == history;
  }

  lemma ThreadedAppended<P, L>(b: Behaviour<P, L>, pool: P, futures: seq<Future>, history: seq<PollRecord<P, L>>,
                               poll: PollRecord<P, L>)
    requires Threaded(b, pool, futures, history) && Follows(b, pool, futures, history, poll)
    ensures Threaded(b, pool, futures, history + [poll])
  {
    hide Follows;
    var all := history + [poll];
    forall k | 0 <= k < |all| ensures Follows(b, pool, futures, all[..k], all[k]) {
      if k < |history| {
        assert all[..k] == history[..k];
      } else {
        assert all[..k] == history;
      }
    }
  }

  lemma TaskFitsAppended<P, L>(task: Task<L>, history: seq<PollRecord<P, L>>, poll: PollRecord<P, L>, i: nat)
    ensures TaskFits(task, history + [poll], i)
       <==> if poll.i != i then TaskFits(task, history, i)
            else if poll.progress.Ready? then task == Finished(poll.progress.returned)
            else task == Running(poll.progress.local)
  {
    hide LastPollOf;
    LastPollAppended(history, poll, i);
  }

  lemma PollAppends<P, L>(b: Behaviour<P, L>, pool: P, futures: seq<Future>, s: Batch<P, L>,
                          history: seq<PollRecord<P, L>>, i: nat, local: L)
    requires StandsAt(s, pool, futures, history) && i < |futures|
    requires var own := LastPollOf(history, i);
      if own < 0 then local == b.begin(futures[i].call) else history[own].progress == Suspended(local)
    ensures var poll := RecordOf(b, i, futures[i].call, PoolAfter(pool, history), local);
      && Follows(b, pool, futures, history, poll)
      && StandsAt(Poll(b, futures, s, i), pool, futures, history + [poll])
  {
    var poll := RecordOf(b, i, futures[i].call, PoolAfter(pool, history), local);
    hide LastPollOf, Begun;
    assert TaskFits(s.tasks[i], history, i);
    BegunAppended(futures, history, poll);
    var t := Poll(b, futures, s, i);
    hide TaskFits;
    forall j | 0 <= j < |futures| ensures TaskFits(t.tasks[j], history + [poll], j) {
      TaskFitsAppended(t.tasks[j], history, poll, j);
    }
  }

  lemma BegunAppended<P, L>(futures: seq<Future>, history: seq<PollRecord<P, L>>, poll: PollRecord<P, L>)
    requires poll.i < |futures|
    ensures Begun(futures, history + [poll])
         == if LastPollOf(history, poll.i) < 0 then Begun(futures, history) + [(poll.i, futures[poll.i].call)]
            else Begun(futures, history)
  {
    hide LastPollOf;
    assert (history + [poll])[..|history|] == history;
  }

  // Every run, whatever the schedule, is one thread of polls through the shared pool.
  lemma {:induction false} RunsThreadThePool<P, L>(b: Behaviour<P, L>, pool: P, futures: seq<Future>, schedule: seq<nat>)
    ensures Threaded(b, pool, futures, History(b, pool, futures, schedule))
    ensures StandsAt(Run(b, pool, futures, schedule), pool, futures, History(b, pool, futures, schedule))
  {
    if schedule != [] {
      hide Follows, Poll, LastPollOf, RecordOf;
      var init, i := schedule[..|schedule| - 1], schedule[|schedule| - 1];
      var s, history := Run(b, pool, futures, init), History(b, pool, futures, init);
      RunsThreadThePool(b, pool, futures, init);
      if i < |futures| {
        var own := LastPollOf(history, i);
        if own >= 0 && history[own].progress.Ready? {
          PollOfFinished(b, futures, s, i);
        } else {
          var local := if own < 0 then b.begin(futures[i].call) else history[own].progress.local;
          PollAppends(b, pool, futures, s, history, i, local);
          ThreadedAppended(b, pool, futures, history, RecordOf(b, i, futures[i].call, PoolAfter(pool, history), local));
        }
      } else {
        PollOfNone(b, futures, s, i);
      }
    }
  }

  lemma PollOfFinished<P, L>(b: Behaviour<P, L>, futures: seq<Future>, s: Batch<P, L>, i: nat)
    requires i < |s.tasks| && s.tasks[i].Finished?
    ensures Poll(b, futures, s, i) == s
  {}

  lemma PollOfNone<P, L>(b: Behaviour<P, L>, futures: seq<Future>, s: Batch<P, L>, i: nat)
    requires i >= |futures|
    ensures Poll(b, futures, s, i) == s
  {}

  // ---- What a call returned ----

  // Some poll of the run polled `call` for future i, in the pool and local state it found, and got r.
  ghost predicate Returns<P, L>(b: Behaviour<P, L>, pool: P, futures: seq<Future>, schedule: seq<nat>,
                                i: nat, call: Call, r: Returned)
  {
    exists k :: 0 <= k < |History(b, pool, futures, schedule)|
                && ReturnedBy(b, History(b, pool, futures, schedule)[k], i, call, r)
  }

  ghost predicate ReturnedBy<P, L>(b: Behaviour<P, L>, poll: PollRecord<P, L>, i: nat, call: Call, r: Returned) {
    poll.i == i && b.poll(poll.before, call, poll.local) == (poll.after, Ready(r))
  }

  lemma {:induction false} ResultsAreLast<P, L>(b: Behaviour<P, L>, pool: P, futures: seq<Future>,
                                               history: seq<PollRecord<P, L>>, k: nat)
    requires Threaded(b, pool, futures, history)
    requires k < |history| && history[k].progress.Ready?
    ensures LastPollOf(history, history[k].i) == k
    decreases |history|
  {
    var last := LastPollOf(history, history[k].i);
    if last != k {
      var earlier := history[..last];
      assert Follows(b, pool, futures, earlier, history[last]);
      forall j | 0 <= j < |earlier| ensures Follows(b, pool, futures, earlier[..j], earlier[j]) {
        assert earlier[..j] == history[..j];
      }
      ResultsAreLast(b, pool, futures, earlier, k);
    }
  }

  // A finished task holds exactly what the last poll of its own call returned.
  lemma TasksHoldWhatTheyReturned<P, L>(b: Behaviour<P, L>, pool: P, futures: seq<Future>,
                                        schedule: seq<nat>, i: nat, r: Returned)
    requires i < |futures|
    ensures |Run(b, pool, futures, schedule).tasks| == |futures|
    ensures Run(b, pool, futures, schedule).tasks[i] == Finished(r)
       <==> Returns(b, pool, futures, schedule, i, futures[i].call, r)
  {
    hide Run, History, LastPollOf;
    var history := History(b, pool, futures, schedule);
    RunsThreadThePool(b, pool, futures, schedule);
    var own := LastPollOf(history, i);
    if Run(b, pool, futures, schedule).tasks[i] == Finished(r) {
      assert Follows(b, pool, futures, history[..own], history[own]);
      assert ReturnedBy(b, history[own], i, futures[i].call, r);
    }
    if Returns(b, pool, futures, schedule, i, futures[i].call, r) {
      var k :| 0 <= k < |history| && ReturnedBy(b, history[k], i, futures[i].call, r);
      assert Follows(b, pool, futures, history[..k], history[k]);
      ResultsAreLast(b, pool, futures, history, k);
    }
  }

  // Future i of a finished batch stands for `call`: the pool saw it begin once, and the outcome at
  // position i is what the last poll of that call returned, a receipt under `id`.
  ghost predicate AttributedTo<P, L>(b: Behaviour<P, L>, pool: P, futures: seq<Future>, schedule: seq<nat>,
                                     i: nat, call: Call, id: AllocationId)
  {
    var s := Run(b, pool, futures, schedule);
    && |s.tasks| == |futures| && i < |futures| && AllFinished(s)
    && Attempts(s.attempts, i) == 1
    && (forall begun :: (i, begun) in s.attempts ==> begun == call)
    && var outcome := Joined(futures, s)[i];
       && (forall receipt: Receipt :: Returns(b, pool, futures, schedule, i, call, Ok(receipt)) <==> outcome == Ok((id, receipt)))
       && (forall e: PoolError :: Returns(b, pool, futures, schedule, i, call, Err(e)) <==> outcome == Err(e))
       && (outcome.Ok? ==> outcome.value.0 == id)
  }

  // Whatever the completion order and whoever fails, each position of a finished batch is attributed
  // to its own call and its own id.
  lemma BatchesAttributeOutcomes<P, L>(b: Behaviour<P, L>, pool: P, futures: seq<Future>, schedule: seq<nat>, i: nat)
    requires AllFinished(Run(b, pool, futures, schedule)) && i < |futures|
    ensures AttributedTo(b, pool, futures, schedule, i, futures[i].call, futures[i].id)
  {
    hide Returns, Run;
    var s, call := Run(b, pool, futures, schedule), futures[i].call;
    RunIsFaithful(b, pool, futures, schedule);
    forall receipt: Receipt
      ensures Returns(b, pool, futures, schedule, i, call, Ok(receipt)) <==> s.tasks[i] == Finished(Ok(receipt))
    {
      TasksHoldWhatTheyReturned(b, pool, futures, schedule, i, Ok(receipt));
    }
    forall e: PoolError ensures Returns(b, pool, futures, schedule, i, call, Err(e)) <==> s.tasks[i] == Finished(Err(e)) {
      TasksHoldWhatTheyReturned(b, pool, futures, schedule, i, Err(e));
    }
  }

  // Ids alone identify outcomes: with distinct ids, a receipt occurs under an id, at whatever
  // position, exactly if the call of that id returned it.
  lemma IdsIdentifyOutcomes<P, L>(b: Behaviour<P, L>, pool: P, futures: seq<Future>, schedule: seq<nat>,
                                  i: nat, receipt: Receipt)
    requires AllFinished(Run(b, pool, futures, schedule)) && i < |futures|
    requires forall j, k :: 0 <= j < k < |futures| ==> futures[j].id != futures[k].id
    ensures |Run(b, pool, futures, schedule).tasks| == |futures|
    ensures Ok((futures[i].id, receipt)) in Joined(futures, Run(b, pool, futures, schedule))
       <==> Returns(b, pool, futures, schedule, i, futures[i].call, Ok(receipt))
  {
    hide Returns, Run;
    BatchesAttributeOutcomes(b, pool, futures, schedule, i);
    var outcomes := Joined(futures, Run(b, pool, futures, schedule));
    if Ok((futures[i].id, receipt)) in outcomes {
      var k :| 0 <= k < |outcomes| && outcomes[k] == Ok((futures[i].id, receipt));
      BatchesAttributeOutcomes(b, pool, futures, schedule, k);
      assert k == i;
    }
  }

  lemma DepositsAreAttributed<P, L>(b: Behaviour<P, L>, pool: P, deposits: seq<Deposit>, schedule: seq<nat>, i: nat)
    requires AllFinished(Run(b, pool, DepositFutures(deposits), schedule)) && i < |deposits|
    ensures |DepositFutures(deposits)| == |deposits|
    ensures var d := deposits[i];
      AttributedTo(b, pool, DepositFutures(deposits), schedule, i, DepositFundsTo(d.id, d.dst, d.amount, d.data), d.id)
  {
    BatchesAttributeOutcomes(b, pool, DepositFutures(deposits), schedule, i);
  }

  lemma WithdrawalsAreAttributed<P, L>(b: Behaviour<P, L>, pool: P, keys: seq<Key>, to: ChainAddress,
                                       schedule: seq<nat>, i: nat)
    requires AllFinished(Run(b, pool, WithdrawFutures(keys, to), schedule)) && i < |keys|
    ensures |WithdrawFutures(keys, to)| == |keys|
    ensures var k := keys[i];
      AttributedTo(b, pool, WithdrawFutures(keys, to), schedule, i, WithdrawDeposit(k.id, k.secret, to, None), k.id)
  {
    BatchesAttributeOutcomes(b, pool, WithdrawFutures(keys, to), schedule, i);
  }

  // A transfer's outcome is identified by its source, never by the shared destination.
  lemma TransfersAreAttributed<P, L>(b: Behaviour<P, L>, pool: P, keys: seq<Key>, dstId: AllocationId, dst: PublicKey,
                                     data: DepositData, schedule: seq<nat>, i: nat)
    requires AllFinished(Run(b, pool, TransferFutures(keys, dstId, dst, data), schedule)) && i < |keys|
    ensures |TransferFutures(keys, dstId, dst, data)| == |keys|
    ensures var k := keys[i];
      AttributedTo(b, pool, TransferFutures(keys, dstId, dst, data), schedule, i,
                   PoolTransfer(k.id, k.secret, dstId, dst, data, None), k.id)
  {
    BatchesAttributeOutcomes(b, pool, TransferFutures(keys, dstId, dst, data), schedule, i);
  }

  // ---- Isolation over a shared pool ----

  // The local state a call would be polled in.
  function LocalOf<P, L>(b: Behaviour<P, L>, call: Call, task: Task<L>): L
    requires !task.Finished?
  {
    match task
    case Unpolled => b.begin(call)
    case Running(local) => local
  }

  // A poll of the call depends on the pool, and changes it, only as far as the view shows.
  ghost predicate KeepsTo<P(!new), L(!new), V>(b: Behaviour<P, L>, call: Call, view: P -> V) {
    forall p, q, l :: view(p) == view(q) ==>
      && b.poll(p, call, l).1 == b.poll(q, call, l).1
      && view(b.poll(p, call, l).0) == view(b.poll(q, call, l).0)
  }

  // No poll of the call changes what the view shows.
  ghost predicate LeavesAlone<P(!new), L(!new), V>(b: Behaviour<P, L>, call: Call, view: P -> V) {
    forall p, l :: view(b.poll(p, call, l).0) == view(p)
  }

  function PollsOf(schedule: seq<nat>, i: nat): nat {
    if schedule == [] then 0
    else PollsOf(schedule[..|schedule| - 1], i) + if schedule[|schedule| - 1] == i then 1 else 0
  }

  // The batch of one future, polled so many times.
  function Alone<P, L>(b: Behaviour<P, L>, pool: P, future: Future, polls: nat): Batch<P, L> {
    Run(b, pool, [future], seq(polls, _ => 0))
  }

  // Seen through the view, future i stands as the only future of the other batch does.
  ghost predicate LooksAlone<P, L, V>(s: Batch<P, L>, i: nat, alone: Batch<P, L>, view: P -> V) {
    && i < |s.tasks| && |alone.tasks| == 1
    && s.tasks[i] == alone.tasks[0]
    && view(s.pool) == view(alone.pool)
  }

  lemma OwnPollLooksAlone<P(!new), L(!new), V>(b: Behaviour<P, L>, futures: seq<Future>, s: Batch<P, L>, i: nat,
                                               alone: Batch<P, L>, view: P -> V)
    requires i < |futures| && |s.tasks| == |futures| && KeepsTo(b, futures[i].call, view)
    requires LooksAlone(s, i, alone, view)
    ensures LooksAlone(Poll(b, futures, s, i), i, Poll(b, [futures[i]], alone, 0), view)
  {
    if !s.tasks[i].Finished? {
      var call := futures[i].call;
      var l := LocalOf(b, call, s.tasks[i]);
      assert b.poll(s.pool, call, l).1 == b.poll(alone.pool, call, l).1;
    }
  }

  lemma OtherPollLooksAlone<P(!new), L(!new), V>(b: Behaviour<P, L>, futures: seq<Future>, s: Batch<P, L>, i: nat,
                                                 alone: Batch<P, L>, view: P -> V, j: nat)
    requires j != i && |s.tasks| == |futures| && (j < |futures| ==> LeavesAlone(b, futures[j].call, view))
    requires LooksAlone(s, i, alone, view)
    ensures LooksAlone(Poll(b, futures, s, j), i, alone, view)
  {}

  // If a call keeps to a part of the pool that the other calls leave alone, then under every schedule
  // its task, and that part of the pool, stand exactly as if the call had been polled on its own. A
  // call that ignores the pool is the case of a constant view.
  lemma {:induction false} BatchesIsolate<P(!new), L(!new), V>(b: Behaviour<P, L>, pool: P, futures: seq<Future>,
                                                             schedule: seq<nat>, i: nat, view: P -> V)
    requires i < |futures| && KeepsTo(b, futures[i].call, view)
    requires forall j :: 0 <= j < |futures| && j != i ==> LeavesAlone(b, futures[j].call, view)
    ensures LooksAlone(Run(b, pool, futures, schedule), i, Alone(b, pool, futures[i], PollsOf(schedule, i)), view)
  {
    hide Poll, KeepsTo, LeavesAlone;
    if schedule != [] {
      var init, last := schedule[..|schedule| - 1], schedule[|schedule| - 1];
      BatchesIsolate(b, pool, futures, init, i, view);
      RunIsFaithful(b, pool, futures, init);
      var s, alone := Run(b, pool, futures, init), Alone(b, pool, futures[i], PollsOf(init, i));
      if last == i {
        OwnPollLooksAlone(b, futures, s, i, alone, view);
        AlonePolledOnce(b, pool, futures[i], PollsOf(init, i));
      } else {
        OtherPollLooksAlone(b, futures, s, i, alone, view, last);
      }
    }
  }

  lemma AlonePolledOnce<P, L>(b: Behaviour<P, L>, pool: P, future: Future, polls: nat)
    ensures Alone(b, pool, future, polls + 1) == Poll(b, [future], Alone(b, pool, future, polls), 0)
  {
    var zeros: seq<nat> := seq(polls + 1, _ => 0);
    assert zeros[..polls] == seq(polls, _ => 0);
  }
}
