// Redemption over several channels (src/tickets/mod.rs) and the collection of its results
// (src/node/incentive.rs).
//
// A redeem stream is a finite sequence of results; the stream group yields the next item of any
// stream it holds, chosen by a scheduler about which nothing is assumed.
module TicketRedemption {
  import opened Wrappers
  import opened ChannelSelectors

  type Ticket = nat
  type ChainError = nat
  type TicketError = nat

  datatype RedemptionResult =
    | Redeemed(ticket: Ticket)
    | ValueTooLow(ticket: Ticket)
    | RejectedOnChain(ticket: Ticket, reason: string)

  type Item = Result<RedemptionResult, TicketError>

  datatype RedeemStream = RedeemStream(channel: ChannelId, items: seq<Item>)

  // What the ticket manager returns when asked for the redeem stream of a channel.
  type Opener = ChannelId -> Result<seq<Item>, TicketError>

  // The channels the chain client streams for a selector.
  function Matching(ledger: seq<Channel>, filters: Filters): seq<Channel> {
    if ledger == [] then []
    else
      var last := ledger[|ledger| - 1];
      Matching(ledger[..|ledger| - 1], filters) + if Accepts(filters, last) then [last] else []
  }

  function Opened(channels: seq<Channel>, open: Opener): seq<RedeemStream> {
    if channels == [] then []
    else
      var last := channels[|channels| - 1].Id();
      Opened(channels[..|channels| - 1], open)
      + match open(last)
        case Ok(items) => [RedeemStream(last, items)]
        case Err(_) => []
  }

  class StreamGroup {
    var streams: seq<RedeemStream>

    constructor ()
      ensures streams == []
    {
      streams := [];
    }

    method Insert(stream: RedeemStream)
      modifies this
      ensures streams == old(streams) + [stream]
    {
      streams := streams + [stream];
    }
  }

  // The stream of the channel is wanted, and opens.
  ghost predicate Redeems(base: Option<Filters>, me: Address, now: DateTime, grace: Option<nat>, open: Opener, c: Channel) {
    Selected(base, me, now, grace, c) && open(c.Id()).Ok?
  }

  // The streams are those of the ledger's entries at these positions, in this order: each entry that
  // redeems occurs, once, and no other.
  ghost predicate OneStreamEach(ledger: seq<Channel>, base: Option<Filters>, me: Address, now: DateTime, grace: Option<nat>,
                                open: Opener, streams: seq<RedeemStream>, positions: seq<nat>)
  {
    && |positions| == |streams|
    && (forall j :: 0 <= j < |positions| ==>
          && positions[j] < |ledger|
          && Redeems(base, me, now, grace, open, ledger[positions[j]])
          && streams[j] == RedeemStream(ledger[positions[j]].Id(), open(ledger[positions[j]].Id()).value))
    && (forall i, j :: 0 <= i < j < |positions| ==> positions[i] < positions[j])
    && (forall n :: 0 <= n < |ledger| && Redeems(base, me, now, grace, open, ledger[n]) ==> n in positions)
  }

  lemma OneMoreStream(ledger: seq<Channel>, last: Channel, base: Option<Filters>, me: Address, now: DateTime,
                      grace: Option<nat>, open: Opener, streams: seq<RedeemStream>, positions: seq<nat>)
    requires OneStreamEach(ledger, base, me, now, grace, open, streams, positions)
    requires Redeems(base, me, now, grace, open, last)
    ensures OneStreamEach(ledger + [last], base, me, now, grace, open,
                          streams + [RedeemStream(last.Id(), open(last.Id()).value)], positions + [|ledger|])
  {
    hide Selected;
    var more := positions + [|ledger|];
    forall n | 0 <= n < |ledger| + 1 && Redeems(base, me, now, grace, open, (ledger + [last])[n]) ensures n in more {
      if n < |ledger| {
        assert n in positions;
      } else {
        assert more[|positions|] == n;
      }
    }
  }

  lemma NoMoreStream(ledger: seq<Channel>, last: Channel, base: Option<Filters>, me: Address, now: DateTime,
                     grace: Option<nat>, open: Opener, streams: seq<RedeemStream>, positions: seq<nat>)
    requires OneStreamEach(ledger, base, me, now, grace, open, streams, positions)
    requires !Redeems(base, me, now, grace, open, last)
    ensures OneStreamEach(ledger + [last], base, me, now, grace, open, streams, positions)
  {
    hide Selected;
  }

  lemma {:induction false} OpenedIsOneStreamEach(ledger: seq<Channel>, base: Option<Filters>, me: Address, now: DateTime,
                                                grace: Option<nat>, open: Opener)
    returns (positions: seq<nat>)
    ensures OneStreamEach(ledger, base, me, now, grace, open,
                          Opened(Matching(ledger, RedemptionFilters(base, me, now, grace)), open), positions)
  {
    hide RedemptionFilters, Accepts, Selected, Opened, Matching, OneStreamEach, Redeems;
    var filters := RedemptionFilters(base, me, now, grace);
    if ledger == [] {
      positions := [];
      NothingOpened(base, me, now, grace, open, filters);
    } else {
      var init, last := ledger[..|ledger| - 1], ledger[|ledger| - 1];
      positions := OpenedIsOneStreamEach(init, base, me, now, grace, open);
      RedeemsIfAccepted(base, me, now, grace, open, last);
      OpenedAppended(init, last, filters, open);
      assert ledger == init + [last];
      if Redeems(base, me, now, grace, open, last) {
        OneMoreStream(init, last, base, me, now, grace, open, Opened(Matching(init, filters), open), positions);
        positions := positions + [|init|];
      } else {
        NoMoreStream(init, last, base, me, now, grace, open, Opened(Matching(init, filters), open), positions);
      }
    }
  }

  lemma NothingOpened(base: Option<Filters>, me: Address, now: DateTime, grace: Option<nat>, open: Opener, filters: Filters)
    ensures OneStreamEach([], base, me, now, grace, open, Opened(Matching([], filters), open), [])
  {}

  lemma RedeemsIfAccepted(base: Option<Filters>, me: Address, now: DateTime, grace: Option<nat>, open: Opener, c: Channel)
    ensures Redeems(base, me, now, grace, open, c)
       <==> Accepts(RedemptionFilters(base, me, now, grace), c) && open(c.Id()).Ok?
  {
    hide RedemptionFilters, Accepts, Selected;
    RedemptionSelects(base, me, now, grace, c);
  }

  lemma OpenedAppended(ledger: seq<Channel>, last: Channel, filters: Filters, open: Opener)
    ensures Opened(Matching(ledger + [last], filters), open)
         == if Accepts(filters, last) && open(last.Id()).Ok? then
              Opened(Matching(ledger, filters), open) + [RedeemStream(last.Id(), open(last.Id()).value)]
            else Opened(Matching(ledger, filters), open)
  {
    hide Accepts;
    var before := Matching(ledger, filters);
    assert (ledger + [last])[..|ledger|] == ledger;
    if Accepts(filters, last) {
      assert (before + [last])[..|before|] == before;
    } else {
      assert before + [] == before;
    }
  }

  // The group of the redeem streams of every selected channel whose stream opens, one each and in the
  // order of the chain. `ledger` is what the chain client knows, or its error.
  method RedeemInChannels(ledger: Result<seq<Channel>, ChainError>, me: Address, selector: Option<Filters>,
                          now: DateTime, minGracePeriod: Option<nat>, open: Opener)
    returns (r: Result<StreamGroup, ChainError>)
    ensures ledger.Err? ==> r == Err(ledger.error)
    ensures ledger.Ok? ==>
              && r.Ok? && fresh(r.value)
              && r.value.streams
                 == Opened(Matching(ledger.value, RedemptionFilters(selector, me, now, minGracePeriod)), open)
              && exists positions ::
                   OneStreamEach(ledger.value, selector, me, now, minGracePeriod, open, r.value.streams, positions)
  {
    var group := new StreamGroup();
    var builder := new ChannelSelector.Of(if selector.Some? then selector.value else DEFAULT_FILTERS);
    builder.WithDestination(me);
    builder.WithRedeemableChannels(now, minGracePeriod);
    if ledger.Err? {
      return Err(ledger.error);
    }
    var channels := Matching(ledger.value, builder.View());
    for i := 0 to |channels|
      invariant group.streams == Opened(channels[..i], open)
    {
      assert channels[..i + 1][..i] == channels[..i];
      match open(channels[i].Id())
      case Ok(items) => group.Insert(RedeemStream(channels[i].Id(), items));
      case Err(_) =>
    }
    assert channels[..|channels|] == channels;
    ghost var positions := OpenedIsOneStreamEach(ledger.value, selector, me, now, minGracePeriod, open);
    return Ok(group);
  }

  // How long before its closure a channel is still worth redeeming, in seconds.
  const PENDING_TO_CLOSE_REDEMPTION_TOLERANCE: nat := 30

  function RedeemAllFilters(me: Address, now: DateTime): Filters {
    RedemptionFilters(None, me, now, Some(PENDING_TO_CLOSE_REDEMPTION_TOLERANCE))
  }

  function RedeemFromFilters(issuer: Address, me: Address, now: DateTime): Filters {
    RedemptionFilters(Some(ApplyAll(DEFAULT_FILTERS, [Call.WithSource(issuer), Call.WithDestination(me)])), me, now,
                      Some(PENDING_TO_CLOSE_REDEMPTION_TOLERANCE))
  }

  // Both redemptions of the node API visit exactly the channels to this node, of any or of the given
  // issuer, that are open or close no sooner than in 30 seconds.
  lemma NodeRedemptionsVisitExactly(issuer: Address, me: Address, now: DateTime, c: Channel)
    ensures Accepts(RedeemAllFilters(me, now), c) <==> RedeemableBy(c, me, now + 30)
    ensures Accepts(RedeemFromFilters(issuer, me, now), c) <==> c.source == issuer && RedeemableBy(c, me, now + 30)
  {
    var calls := [Call.WithSource(issuer), Call.WithDestination(me)];
    assert calls[..1] == [calls[0]] && calls[..1][..0] == [];
    assert ApplyAll(DEFAULT_FILTERS, calls[..1]) == Apply(DEFAULT_FILTERS, calls[0]);
    RedemptionFiltersAre(DEFAULT_FILTERS, me, now, Some(30));
    RedemptionFiltersAre(ApplyAll(DEFAULT_FILTERS, calls), me, now, Some(30));
    assert RedeemAllFilters(me, now) == RedemptionFilters(Some(DEFAULT_FILTERS), me, now, Some(30));
  }

  lemma {:induction false} OpenedSplits(first: seq<Channel>, second: seq<Channel>, open: Opener)
    ensures Opened(first + second, open) == Opened(first, open) + Opened(second, open)
    decreases |second|
  {
    if second == [] {
      assert first + second == first;
    } else {
      var n := |second| - 1;
      assert (first + second)[..|first + second| - 1] == first + second[..n];
      OpenedSplits(first, second[..n], open);
    }
  }

  // A channel whose stream fails to open leaves every other stream and its position untouched.
  lemma FailedStreamsAreSkipped(before: seq<Channel>, failed: Channel, rest: seq<Channel>, open: Opener)
    requires open(failed.Id()).Err?
    ensures Opened(before + [failed] + rest, open) == Opened(before + rest, open)
  {
    OpenedSplits(before + [failed], rest, open);
    OpenedSplits(before, [failed], open);
    OpenedSplits(before, rest, open);
    assert [failed][..0] == [];
  }

  // A stream is in the group exactly when its channel is known, selected and opens to it.
  lemma {:induction false} OpenedStreamsAreSelected(ledger: seq<Channel>, filters: Filters, open: Opener, s: RedeemStream)
    ensures s in Opened(Matching(ledger, filters), open)
       <==> exists c :: c in ledger && Accepts(filters, c) && c.Id() == s.channel && open(c.Id()) == Ok(s.items)
  {
    if ledger != [] {
      var n := |ledger| - 1;
      var init, last := ledger[..n], ledger[n];
      OpenedStreamsAreSelected(init, filters, open, s);
      assert ledger == init + [last];
      OpenedSplits(Matching(init, filters), if Accepts(filters, last) then [last] else [], open);
      assert [last][..0] == [];
      if c :| c in ledger && Accepts(filters, c) && c.Id() == s.channel && open(c.Id()) == Ok(s.items) {
        assert c in init || c == last;
      }
    }
  }

  // ---- Merging the streams ----

  // What is left of each stream, and what the group yielded, tagged with the stream it came from.
  datatype Merge = Merge(remaining: seq<seq<Item>>, output: seq<(nat, Item)>)

  function Start(streams: seq<RedeemStream>): Merge {
    Merge(seq(|streams|, i requires 0 <= i < |streams| => streams[i].items), [])
  }

  // The scheduler lets stream k make progress; a stream that ended has nothing to yield.
  function Poll(m: Merge, k: nat): Merge {
    if k < |m.remaining| && m.remaining[k] != [] then
      Merge(m.remaining[k := m.remaining[k][1..]], m.output + [(k, m.remaining[k][0])])
    else m
  }

  function Run(m: Merge, schedule: seq<nat>): Merge {
    if schedule == [] then m
    else Poll(Run(m, schedule[..|schedule| - 1]), schedule[|schedule| - 1])
  }

  predicate Finished(m: Merge) {
    forall k :: 0 <= k < |m.remaining| ==> m.remaining[k] == []
  }

  // The items that came from stream k.
  function Project(output: seq<(nat, Item)>, k: nat): seq<Item> {
    if output == [] then []
    else
      var last := output[|output| - 1];
      Project(output[..|output| - 1], k) + if last.0 == k then [last.1] else []
  }

  lemma ProjectOfAppended(output: seq<(nat, Item)>, k: nat, j: nat, item: Item)
    ensures Project(output + [(j, item)], k) == Project(output, k) + if j == k then [item] else []
  {
    assert (output + [(j, item)])[..|output|] == output;
  }

  // Nothing is lost, duplicated or reordered within a stream, whatever the schedule.
  ghost predicate Conserves(m: Merge, streams: seq<RedeemStream>) {
    && |m.remaining| == |streams|
    && (forall k :: 0 <= k < |streams| ==> Project(m.output, k) + m.remaining[k] == streams[k].items)
    && (forall i :: 0 <= i < |m.output| ==> m.output[i].0 < |streams|)
  }

  lemma PollConserves(m: Merge, j: nat, streams: seq<RedeemStream>)
    requires Conserves(m, streams)
    ensures Conserves(Poll(m, j), streams)
  {
    if j < |m.remaining| && m.remaining[j] != [] {
      var item, n := m.remaining[j][0], Poll(m, j);
      forall k | 0 <= k < |streams| ensures Project(n.output, k) + n.remaining[k] == streams[k].items {
        ProjectOfAppended(m.output, k, j, item);
        if k == j {
          assert m.remaining[j] == [item] + m.remaining[j][1..];
        }
      }
    }
  }

  lemma {:induction false} EveryScheduleConserves(streams: seq<RedeemStream>, schedule: seq<nat>)
    ensures Conserves(Run(Start(streams), schedule), streams)
  {
    if schedule != [] {
      EveryScheduleConserves(streams, schedule[..|schedule| - 1]);
      PollConserves(Run(Start(streams), schedule[..|schedule| - 1]), schedule[|schedule| - 1], streams);
    }
  }

  // At every moment of every run, a channel's results are a prefix of its stream, in its order;
  // a finished run yielded each stream completely.
  lemma ChannelsKeepTheirOrder(streams: seq<RedeemStream>, schedule: seq<nat>, k: nat)
    requires k < |streams|
    ensures var m := Run(Start(streams), schedule);
      && Project(m.output, k) <= streams[k].items
      && (Finished(m) ==> Project(m.output, k) == streams[k].items)
  {
    EveryScheduleConserves(streams, schedule);
  }

  // An output in which each stream appears exactly once and in order.
  ghost predicate IsInterleaving(output: seq<(nat, Item)>, streams: seq<RedeemStream>) {
    && (forall i :: 0 <= i < |output| ==> output[i].0 < |streams|)
    && (forall k :: 0 <= k < |streams| ==> Project(output, k) == streams[k].items)
  }

  function Tags(output: seq<(nat, Item)>): seq<nat> {
    seq(|output|, i requires 0 <= i < |output| => output[i].0)
  }

  lemma {:induction false} ProjectOfPrefix(output: seq<(nat, Item)>, n: nat, k: nat)
    requires n <= |output|
    ensures Project(output[..n], k) <= Project(output, k)
    decreases |output|
  {
    if n == |output| {
      assert output[..n] == output;
    } else {
      var init := output[..|output| - 1];
      assert init[..n] == output[..n];
      ProjectOfPrefix(init, n, k);
    }
  }

  // Scheduling the streams in the order of an interleaving's tags reproduces it.
  lemma {:induction false} TagsReproduce(output: seq<(nat, Item)>, streams: seq<RedeemStream>, n: nat)
    requires IsInterleaving(output, streams) && n <= |output|
    ensures Run(Start(streams), Tags(output)[..n]).output == output[..n]
  {
    if n > 0 {
      TagsReproduce(output, streams, n - 1);
      var before := Run(Start(streams), Tags(output)[..n - 1]);
      EveryScheduleConserves(streams, Tags(output)[..n - 1]);
      assert Tags(output)[..n][..n - 1] == Tags(output)[..n - 1];
      var (k, item) := output[n - 1];
      assert output[..n][..n - 1] == output[..n - 1];
      ProjectOfPrefix(output, n, k);
      assert Project(output[..n], k) == Project(before.output, k) + [item];
      NextItem(Project(before.output, k), item, before.remaining[k], streams[k].items);
    }
  }

  lemma NextItem(done: seq<Item>, item: Item, rest: seq<Item>, all: seq<Item>)
    requires done + [item] <= all && done + rest == all
    ensures rest != [] && rest[0] == item
  {
    assert all[|done|] == (done + [item])[|done|];
    assert all[|done|] == (done + rest)[|done|];
  }

  // The outputs of finished runs are exactly the interleavings of the streams.
  lemma FinishedRunsAreTheInterleavings(streams: seq<RedeemStream>, output: seq<(nat, Item)>)
    ensures (exists schedule :: Finished(Run(Start(streams), schedule)) && Run(Start(streams), schedule).output == output)
       <==> IsInterleaving(output, streams)
  {
    if schedule :| Finished(Run(Start(streams), schedule)) && Run(Start(streams), schedule).output == output {
      EveryScheduleConserves(streams, schedule);
    }
    if IsInterleaving(output, streams) {
      var tags := Tags(output);
      TagsReproduce(output, streams, |output|);
      assert tags[..|output|] == tags && output[..|output|] == output;
      EveryScheduleConserves(streams, tags);
      var m := Run(Start(streams), tags);
      forall k | 0 <= k < |m.remaining| ensures m.remaining[k] == [] {
        assert |Project(m.output, k) + m.remaining[k]| == |streams[k].items|;
      }
    }
  }

  lemma {:induction false} RunsCompose(m: Merge, first: seq<nat>, second: seq<nat>)
    ensures Run(m, first + second) == Run(Run(m, first), second)
    decreases |second|
  {
    if second == [] {
      assert first + second == first;
    } else {
      var n := |second| - 1;
      assert (first + second)[..|first + second| - 1] == first + second[..n];
      RunsCompose(m, first, second[..n]);
    }
  }

  lemma {:induction false} StreamsCanBeDrained(m: Merge, k: nat) returns (schedule: seq<nat>)
    requires k < |m.remaining|
    ensures Run(m, schedule).remaining == m.remaining[k := []]
    decreases |m.remaining[k]|
  {
    if m.remaining[k] == [] {
      schedule := [];
    } else {
      var rest := StreamsCanBeDrained(Poll(m, k), k);
      schedule := [k] + rest;
      assert [k][..0] == [];
      assert Run(m, [k]) == Poll(Run(m, [k][..0]), k);
      RunsCompose(m, [k], rest);
    }
  }

  lemma {:induction false} GroupsCanBeDrained(m: Merge, from: nat) returns (schedule: seq<nat>)
    requires from <= |m.remaining| && forall k :: 0 <= k < from ==> m.remaining[k] == []
    ensures Finished(Run(m, schedule))
    decreases |m.remaining| - from
  {
    if from == |m.remaining| {
      schedule := [];
    } else {
      var first := StreamsCanBeDrained(m, from);
      var rest := GroupsCanBeDrained(Run(m, first), from + 1);
      schedule := first + rest;
      RunsCompose(m, first, rest);
    }
  }

  // No deadlock: whatever has been polled so far, every stream can still be drained.
  lemma EveryRunCanFinish(streams: seq<RedeemStream>, schedule: seq<nat>)
    ensures exists more :: Finished(Run(Start(streams), schedule + more))
  {
    var more := GroupsCanBeDrained(Run(Start(streams), schedule), 0);
    RunsCompose(Start(streams), schedule, more);
    assert Finished(Run(Start(streams), schedule + more));
  }

  // What the streams of one channel yielded.
  function YieldedBy(streams: seq<RedeemStream>, output: seq<(nat, Item)>, id: ChannelId): seq<Item> {
    if output == [] then []
    else
      var last := output[|output| - 1];
      YieldedBy(streams, output[..|output| - 1], id)
      + if last.0 < |streams| && streams[last.0].channel == id then [last.1] else []
  }

  lemma {:induction false} OnlyStreamOfItsChannel(streams: seq<RedeemStream>, output: seq<(nat, Item)>, id: ChannelId, k: nat)
    requires forall j :: 0 <= j < |streams| ==> (streams[j].channel == id <==> j == k)
    requires k < |streams|
    ensures YieldedBy(streams, output, id) == Project(output, k)
  {
    if output != [] {
      OnlyStreamOfItsChannel(streams, output[..|output| - 1], id, k);
    }
  }

  lemma {:induction false} NoStreamOfTheChannel(streams: seq<RedeemStream>, output: seq<(nat, Item)>, id: ChannelId)
    requires forall j :: 0 <= j < |streams| ==> streams[j].channel != id
    ensures YieldedBy(streams, output, id) == []
  {
    if output != [] {
      NoStreamOfTheChannel(streams, output[..|output| - 1], id);
    }
  }

  // Over a ledger of distinct channels, a finished redemption yields of each channel that redeems exactly
  // the items of its stream, each as often as there and in that order, and of any other channel nothing.
  lemma ChannelsAreRedeemedOnce(ledger: seq<Channel>, base: Option<Filters>, me: Address, now: DateTime, grace: Option<nat>,
                                open: Opener, streams: seq<RedeemStream>, positions: seq<nat>, schedule: seq<nat>, n: nat)
    requires forall i, j :: 0 <= i < j < |ledger| ==> ledger[i].Id() != ledger[j].Id()
    requires OneStreamEach(ledger, base, me, now, grace, open, streams, positions)
    requires Finished(Run(Start(streams), schedule)) && n < |ledger|
    ensures YieldedBy(streams, Run(Start(streams), schedule).output, ledger[n].Id())
         == if Redeems(base, me, now, grace, open, ledger[n]) then open(ledger[n].Id()).value else []
  {
    hide Run, Redeems;
    var output, id := Run(Start(streams), schedule).output, ledger[n].Id();
    forall j | 0 <= j < |streams| ensures streams[j].channel == id <==> positions[j] == n {
      assert streams[j].channel == ledger[positions[j]].Id();
    }
    if Redeems(base, me, now, grace, open, ledger[n]) {
      var k :| 0 <= k < |positions| && positions[k] == n;
      OnlyStreamOfItsChannel(streams, output, id, k);
      ChannelsKeepTheirOrder(streams, schedule, k);
    } else {
      NoStreamOfTheChannel(streams, output, id);
    }
  }

  // ---- Collecting the results ----

  function Items(output: seq<(nat, Item)>): seq<Item> {
    seq(|output|, i requires 0 <= i < |output| => output[i].1)
  }

  // `try_collect`: all values, or the first error and nothing else.
  function TryCollect(items: seq<Item>): Result<seq<RedemptionResult>, TicketError> {
    if items == [] then Ok([])
    else
      match items[0]
      case Err(e) => Err(e)
      case Ok(v) =>
        match TryCollect(items[1..])
        case Err(e) => Err(e)
        case Ok(vs) => Ok([v] + vs)
  }

  lemma {:induction false} CollectSucceedsWithoutErrors(items: seq<Item>)
    ensures TryCollect(items).Ok? <==> forall i :: 0 <= i < |items| ==> items[i].Ok?
    ensures TryCollect(items).Ok? ==>
              && |TryCollect(items).value| == |items|
              && forall i :: 0 <= i < |items| ==> items[i] == Ok(TryCollect(items).value[i])
    ensures TryCollect(items).Err? ==> Err(TryCollect(items).error) in items
  {
    if items != [] {
      CollectSucceedsWithoutErrors(items[1..]);
      if items[0].Ok? && TryCollect(items[1..]).Ok? {
        forall i | 0 <= i < |items| ensures items[i].Ok? && items[i] == Ok(TryCollect(items).value[i]) {
          if i > 0 { assert items[i] == items[1..][i - 1]; }
        }
      }
      if TryCollect(items[1..]).Err? {
        var bad :| 0 <= bad < |items[1..]| && !items[1..][bad].Ok?;
        assert items[bad + 1] == items[1..][bad];
      }
    }
  }

  lemma {:induction false} ProjectMembers(output: seq<(nat, Item)>, k: nat, item: Item)
    ensures item in Project(output, k) <==> (k, item) in output
  {
    if output != [] {
      ProjectMembers(output[..|output| - 1], k, item);
      assert output == output[..|output| - 1] + [output[|output| - 1]];
    }
  }

  // Redeeming everything reports success exactly when no stream of any channel held an error, and
  // then reports one result per item. Otherwise it reports an error some stream did end with.
  lemma CollectedRedemptions(streams: seq<RedeemStream>, schedule: seq<nat>)
    requires Finished(Run(Start(streams), schedule))
    ensures var output := Run(Start(streams), schedule).output;
      var r := TryCollect(Items(output));
      && (r.Ok? <==> forall k, item :: 0 <= k < |streams| && item in streams[k].items ==> item.Ok?)
      && (r.Ok? ==> |r.value| == |output| && forall i :: 0 <= i < |output| ==> output[i].1 == Ok(r.value[i]))
      && (r.Err? ==> exists k :: 0 <= k < |streams| && Err(r.error) in streams[k].items)
  {
    hide TryCollect, Run, Project;
    var output := Run(Start(streams), schedule).output;
    var items := Items(output);
    var r := TryCollect(items);
    EveryScheduleConserves(streams, schedule);
    CollectSucceedsWithoutErrors(items);
    if r.Ok? {
      forall k, item | 0 <= k < |streams| && item in streams[k].items ensures item.Ok? {
        ProjectMembers(output, k, item);
        var i :| 0 <= i < |output| && output[i] == (k, item);
        assert items[i] == item;
      }
    } else {
      var i :| 0 <= i < |items| && items[i] == Err(r.error);
      var k := output[i].0;
      ProjectMembers(output, k, items[i]);
      assert items[i] in streams[k].items;
    }
  }

  lemma {:induction false} CollectStopsAtTheFirstError(items: seq<Item>, more: seq<Item>)
    requires TryCollect(items).Err?
    ensures TryCollect(items + more) == TryCollect(items)
  {
    assert (items + more)[0] == items[0] && (items + more)[1..] == items[1..] + more;
    if items[0].Ok? {
      CollectStopsAtTheFirstError(items[1..], more);
    }
  }

  lemma {:induction false} OutputOnlyGrows(m: Merge, schedule: seq<nat>)
    ensures m.output <= Run(m, schedule).output
  {
    if schedule != [] {
      OutputOnlyGrows(m, schedule[..|schedule| - 1]);
    }
  }

  lemma CollectOfGrown(output: seq<(nat, Item)>, grown: seq<(nat, Item)>)
    requires output <= grown && TryCollect(Items(output)).Err?
    ensures TryCollect(Items(grown)) == TryCollect(Items(output))
  {
    hide TryCollect;
    assert Items(grown) == Items(output) + Items(grown)[|output|..];
    CollectStopsAtTheFirstError(Items(output), Items(grown)[|output|..]);
  }

  // The first error decides the outcome: collecting may stop there, leaving the other streams
  // unredeemed, and no later progress would have changed what is reported.
  lemma FirstErrorDecides(streams: seq<RedeemStream>, schedule: seq<nat>, more: seq<nat>)
    requires TryCollect(Items(Run(Start(streams), schedule).output)).Err?
    ensures TryCollect(Items(Run(Start(streams), schedule + more).output))
         == TryCollect(Items(Run(Start(streams), schedule).output))
  {
    hide Run, TryCollect, Items;
    var m := Run(Start(streams), schedule);
    RunsCompose(Start(streams), schedule, more);
    OutputOnlyGrows(m, more);
    CollectOfGrown(m.output, Run(m, more).output);
  }

  // What redemption over the channels of a ledger has yielded after a schedule.
  function Results(ledger: seq<Channel>, filters: Filters, open: Opener, schedule: seq<nat>): seq<(nat, Item)> {
    Run(Start(Opened(Matching(ledger, filters), open)), schedule).output
  }

  // The i-th of these results comes out of the stream of the known channel c.
  ghost predicate ComesFrom(ledger: seq<Channel>, filters: Filters, open: Opener, schedule: seq<nat>, i: nat, c: Channel)
    requires i < |Results(ledger, filters, open, schedule)|
  {
    var (k, item) := Results(ledger, filters, open, schedule)[i];
    var streams := Opened(Matching(ledger, filters), open);
    && c in ledger
    && k < |streams| && streams[k].channel == c.Id()
    && open(c.Id()) == Ok(streams[k].items) && item in streams[k].items
  }

  lemma OutputItemsAreHeld(streams: seq<RedeemStream>, schedule: seq<nat>, i: nat)
    requires i < |Run(Start(streams), schedule).output|
    ensures var (k, item) := Run(Start(streams), schedule).output[i];
      k < |streams| && item in streams[k].items
  {
    hide Run, Project;
    var m := Run(Start(streams), schedule);
    var (k, item) := m.output[i];
    EveryScheduleConserves(streams, schedule);
    ProjectMembers(m.output, k, item);
    assert item in Project(m.output, k) + m.remaining[k];
  }

  // Every result a redemption ever yields comes from a known channel the built selector accepts.
  lemma ResultsComeFromMatches(ledger: seq<Channel>, filters: Filters, open: Opener, schedule: seq<nat>, i: nat)
    requires i < |Results(ledger, filters, open, schedule)|
    ensures exists c :: ComesFrom(ledger, filters, open, schedule, i, c) && Accepts(filters, c)
  {
    hide Run, Opened, Matching, Accepts;
    var streams := Opened(Matching(ledger, filters), open);
    var k := Results(ledger, filters, open, schedule)[i].0;
    OutputItemsAreHeld(streams, schedule, i);
    OpenedStreamsAreSelected(ledger, filters, open, streams[k]);
    var c :| c in ledger && Accepts(filters, c) && c.Id() == streams[k].channel && open(c.Id()) == Ok(streams[k].items);
    assert ComesFrom(ledger, filters, open, schedule, i, c);
  }

  // Whatever the base selector, every result comes from a known channel that this redemption selects.
  lemma ResultsComeFromSelectedChannels(ledger: seq<Channel>, base: Option<Filters>, me: Address, now: DateTime,
                                        grace: Option<nat>, open: Opener, schedule: seq<nat>, i: nat)
    requires i < |Results(ledger, RedemptionFilters(base, me, now, grace), open, schedule)|
    ensures exists c :: ComesFrom(ledger, RedemptionFilters(base, me, now, grace), open, schedule, i, c)
                     && Selected(base, me, now, grace, c)
  {
    hide Results, ComesFrom, RedemptionFilters, Accepts, Selected;
    var filters := RedemptionFilters(base, me, now, grace);
    ResultsComeFromMatches(ledger, filters, open, schedule, i);
    var c :| ComesFrom(ledger, filters, open, schedule, i, c) && Accepts(filters, c);
    RedemptionSelects(base, me, now, grace, c);
  }

  // The i-th result, if there is one, comes from a channel the caller's selector accepts and that is redeemable.
  ghost predicate ResultIsWanted(ledger: seq<Channel>, base: Filters, me: Address, now: DateTime, grace: Option<nat>,
                                 open: Opener, schedule: seq<nat>, i: nat)
  {
    var filters := RedemptionFilters(Some(base), me, now, grace);
    i < |Results(ledger, filters, open, schedule)| ==>
      exists c :: ComesFrom(ledger, filters, open, schedule, i, c)
               && Accepts(base, c) && RedeemableBy(c, me, Deadline(now, grace))
  }

  lemma NarrowedResultsAreWanted(ledger: seq<Channel>, base: Filters, me: Address, now: DateTime, grace: Option<nat>,
                                 open: Opener, schedule: seq<nat>, i: nat)
    requires Narrows(base, me, Deadline(now, grace))
    ensures ResultIsWanted(ledger, base, me, now, grace, open, schedule, i)
  {
    hide Results, ComesFrom, RedemptionFilters, Accepts, Narrows, RedeemableBy;
    var filters := RedemptionFilters(Some(base), me, now, grace);
    RedemptionSelectsExactly(base, me, now, grace);
    if i < |Results(ledger, filters, open, schedule)| {
      ResultsComeFromMatches(ledger, filters, open, schedule, i);
      var c :| ComesFrom(ledger, filters, open, schedule, i, c) && Accepts(filters, c);
      assert Accepts(base, c) && RedeemableBy(c, me, Deadline(now, grace));
    }
  }

  // One known channel, one ticket in it, one poll: what the built selector accepts is redeemed from.
  lemma OneTicketRun(c: Channel, filters: Filters, open: Opener, item: Item)
    requires Accepts(filters, c) && open(c.Id()) == Ok([item])
    ensures Results([c], filters, open, [0]) == [(0, item)]
  {
    assert [c][..0] == [];
    assert Matching([c], filters) == [c];
    assert Opened([c], open) == [RedeemStream(c.Id(), [item])];
    var schedule: seq<nat> := [0];
    assert schedule[..0] == [];
    assert Run(Start(Opened([c], open)), schedule[..0]) == Start(Opened([c], open));
  }

  lemma OverreachIsUnwanted(base: Filters, me: Address, now: DateTime, grace: Option<nat>)
    requires !Narrows(base, me, Deadline(now, grace))
    ensures exists ledger, open, schedule, i: nat :: !ResultIsWanted(ledger, base, me, now, grace, open, schedule, i)
  {
    hide Accepts, Narrows, RedeemableBy, RedemptionFilters, Results;
    RedemptionFiltersAre(base, me, now, grace);
    var c, item := Overreach(base, me, Deadline(now, grace)), Ok(Redeemed(0));
    var open: Opener := _ => Ok([item]);
    OneTicketRun(c, RedemptionFilters(Some(base), me, now, grace), open, item);
    assert !ResultIsWanted([c], base, me, now, grace, open, [0], 0);
  }

  // Results come from wanted channels only, for every ledger, ticket manager and schedule, exactly for
  // the base selectors that narrow.
  lemma ResultsAreWantedExactly(base: Filters, me: Address, now: DateTime, grace: Option<nat>)
    ensures (forall ledger, open, schedule, i: nat :: ResultIsWanted(ledger, base, me, now, grace, open, schedule, i))
       <==> Narrows(base, me, Deadline(now, grace))
  {
    hide ResultIsWanted, Narrows;
    if Narrows(base, me, Deadline(now, grace)) {
      forall ledger, open, schedule, i: nat
        ensures ResultIsWanted(ledger, base, me, now, grace, open, schedule, i)
      {
        NarrowedResultsAreWanted(ledger, base, me, now, grace, open, schedule, i);
      }
    } else {
      OverreachIsUnwanted(base, me, now, grace);
    }
  }
}
