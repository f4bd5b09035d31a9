// The channel selector builder and its matching rule (src/chain/channels.rs).
module ChannelSelectors {
  import opened Wrappers

  type Address = nat
  type DateTime = int

  // A channel's id is a hash of its parties, taken to be free of collisions; an id somebody names may
  // also be no hash of any two addresses.
  datatype ChannelId = IdOf(source: Address, destination: Address) | NoChannelId(bytes: nat)

  datatype StatusKind = Open | PendingToClose | Closed

  datatype ChannelStatus = IsOpen | IsPendingToClose(closureTime: DateTime) | IsClosed

  // The parts of a channel entry a selector looks at.
  datatype Channel = Channel(source: Address, destination: Address, status: ChannelStatus) {
    function Id(): ChannelId {
      IdOf(source, destination)
    }
  }

  datatype Bound = Included(time: DateTime) | Excluded(time: DateTime) | Unbounded

  datatype Range = Range(lower: Bound, upper: Bound)

  // The value of a selector.
  datatype Filters = Filters(
    source: Option<Address>,
    destination: Option<Address>,
    id: Option<ChannelId>,
    allowedStates: seq<StatusKind>,
    closureTimeRange: Range)

  const DEFAULT_FILTERS := Filters(None, None, None, [], Range(Unbounded, Unbounded))

  function Discriminant(status: ChannelStatus): StatusKind {
    match status
    case IsOpen => Open
    case IsPendingToClose(_) => PendingToClose
    case IsClosed => Closed
  }

  predicate Contains(range: Range, time: DateTime) {
    && (match range.lower
        case Included(t) => t <= time
        case Excluded(t) => t < time
        case Unbounded => true)
    && (match range.upper
        case Included(t) => time <= t
        case Excluded(t) => time < t
        case Unbounded => true)
  }

  predicate Passes<T(==)>(filter: Option<T>, x: T) {
    filter.None? || filter.value == x
  }

  predicate StateAllowed(s: Filters, c: Channel) {
    s.allowedStates == [] || Discriminant(c.status) in s.allowedStates
  }

  predicate ClosureAllowed(s: Filters, c: Channel) {
    c.status.IsPendingToClose? && PendingToClose in s.allowedStates ==> Contains(s.closureTimeRange, c.status.closureTime)
  }

  // What `satisfies` decides: an id takes precedence over the parties.
  predicate Accepts(s: Filters, c: Channel) {
    && (if s.id.Some? then c.Id() == s.id.value else Passes(s.source, c.source) && Passes(s.destination, c.destination))
    && StateAllowed(s, c)
    && ClosureAllowed(s, c)
  }

  datatype Call =
    | WithSource(source: Address)
    | WithDestination(destination: Address)
    | WithId(id: ChannelId)
    | WithAllowedStates(states: seq<StatusKind>)
    | WithClosureTimeRange(range: Range)

  function Apply(s: Filters, call: Call): Filters {
    match call
    case WithSource(a) => s.(source := Some(a), id := None)
    case WithDestination(a) => s.(destination := Some(a), id := None)
    case WithId(id) => s.(id := Some(id), source := None, destination := None)
    case WithAllowedStates(states) => s.(allowedStates := s.allowedStates + states)
    case WithClosureTimeRange(range) => s.(closureTimeRange := range)
  }

  function ApplyAll(s: Filters, calls: seq<Call>): Filters {
    if calls == [] then s
    else Apply(ApplyAll(s, calls[..|calls| - 1]), calls[|calls| - 1])
  }

  // `with_redeemable_channels` at the instant `now`.
  function RedeemableCalls(now: DateTime, grace: Option<nat>): seq<Call> {
    [WithAllowedStates([Open, PendingToClose]),
     WithClosureTimeRange(Range(Included(Deadline(now, grace)), Unbounded))]
  }

  function Deadline(now: DateTime, grace: Option<nat>): DateTime {
    now + if grace.Some? then grace.value else 0
  }

  // The builder itself, updating its fields in place.
  class ChannelSelector {
    var source: Option<Address>
    var destination: Option<Address>
    var id: Option<ChannelId>
    var allowedStates: seq<StatusKind>
    var closureTimeRange: Range

    function View(): Filters
      reads this
    {
      Filters(source, destination, id, allowedStates, closureTimeRange)
    }

    constructor ()
      ensures View() == DEFAULT_FILTERS
    {
      source, destination, id := None, None, None;
      allowedStates := [];
      closureTimeRange := Range(Unbounded, Unbounded);
    }

    constructor Of(s: Filters)
      ensures View() == s
    {
      source, destination, id := s.source, s.destination, s.id;
      allowedStates, closureTimeRange := s.allowedStates, s.closureTimeRange;
    }

    method WithSource(address: Address)
      modifies this
      ensures View() == Apply(old(View()), Call.WithSource(address))
    {
      source := Some(address);
      id := None;
    }

    method WithDestination(address: Address)
      modifies this
      ensures View() == Apply(old(View()), Call.WithDestination(address))
    {
      destination := Some(address);
      id := None;
    }

    method WithId(channel: ChannelId)
      modifies this
      ensures View() == Apply(old(View()), Call.WithId(channel))
    {
      id := Some(channel);
      source := None;
      destination := None;
    }

    method WithAllowedStates(states: seq<StatusKind>)
      modifies this
      ensures View() == Apply(old(View()), Call.WithAllowedStates(states))
    {
      allowedStates := allowedStates + states;
    }

    method WithClosureTimeRange(range: Range)
      modifies this
      ensures View() == Apply(old(View()), Call.WithClosureTimeRange(range))
    {
      closureTimeRange := range;
    }

    method WithRedeemableChannels(now: DateTime, minGracePeriod: Option<nat>)
      modifies this
      ensures View() == ApplyAll(old(View()), RedeemableCalls(now, minGracePeriod))
    {
      ghost var before, calls := View(), RedeemableCalls(now, minGracePeriod);
      WithAllowedStates([Open, PendingToClose]);
      WithClosureTimeRange(Range(Included(Deadline(now, minGracePeriod)), Unbounded));
      assert calls[..1] == [calls[0]] && calls[..1][..0] == [];
      assert ApplyAll(before, calls[..1]) == Apply(before, calls[0]);
    }

    method Satisfies(channel: Channel) returns (ok: bool)
      ensures ok == Accepts(View(), channel)
    {
      if id.Some? {
        if channel.Id() != id.value {
          return false;
        }
      } else {
        if source.Some? && channel.source != source.value {
          return false;
        }
        if destination.Some? && channel.destination != destination.value {
          return false;
        }
      }
      if allowedStates != [] && Discriminant(channel.status) !in allowedStates {
        return false;
      }
      if PendingToClose in allowedStates && channel.status.IsPendingToClose? {
        if !Contains(closureTimeRange, channel.status.closureTime) {
          return false;
        }
      }
      return true;
    }
  }

  // ---- Normal form of every builder call sequence ----

  // `call` occurs, and no later call resets what it set.
  ghost predicate DecidedBy(calls: seq<Call>, call: Call, resets: Call -> bool) {
    exists i :: 0 <= i < |calls| && calls[i] == call && (forall j :: i < j < |calls| ==> !resets(calls[j]))
  }

  lemma DecidedByLast(calls: seq<Call>, call: Call, resets: Call -> bool)
    requires calls != []
    ensures DecidedBy(calls, call, resets)
       <==> calls[|calls| - 1] == call || (DecidedBy(calls[..|calls| - 1], call, resets) && !resets(calls[|calls| - 1]))
  {}

  predicate ResetsId(c: Call) {
    c.WithId? || c.WithSource? || c.WithDestination?
  }

  predicate ResetsSource(c: Call) {
    c.WithId? || c.WithSource?
  }

  predicate ResetsDestination(c: Call) {
    c.WithId? || c.WithDestination?
  }

  predicate ResetsRange(c: Call) {
    c.WithClosureTimeRange?
  }

  function AllStates(calls: seq<Call>): seq<StatusKind> {
    if calls == [] then []
    else
      var last := calls[|calls| - 1];
      AllStates(calls[..|calls| - 1]) + if last.WithAllowedStates? then last.states else []
  }

  // Each of id, source and destination is what its last call set, unless a later call unset it.
  ghost predicate PartiesNormal(s: Filters, calls: seq<Call>) {
    && (forall x: ChannelId :: s.id == Some(x) <==> DecidedBy(calls, Call.WithId(x), ResetsId))
    && (forall a: Address :: s.source == Some(a) <==> DecidedBy(calls, Call.WithSource(a), ResetsSource))
    && (forall a: Address :: s.destination == Some(a) <==> DecidedBy(calls, Call.WithDestination(a), ResetsDestination))
  }

  // The range is that of the last range call, or unbounded if there was none.
  ghost predicate RangeNormal(s: Filters, calls: seq<Call>) {
    || DecidedBy(calls, Call.WithClosureTimeRange(s.closureTimeRange), ResetsRange)
    || (s.closureTimeRange == Range(Unbounded, Unbounded) && forall i :: 0 <= i < |calls| ==> !ResetsRange(calls[i]))
  }

  lemma PartiesStayNormal(before: Filters, calls: seq<Call>)
    requires calls != [] && PartiesNormal(before, calls[..|calls| - 1])
    ensures PartiesNormal(Apply(before, calls[|calls| - 1]), calls)
  {
    hide DecidedBy;
    var s := Apply(before, calls[|calls| - 1]);
    forall x: ChannelId ensures s.id == Some(x) <==> DecidedBy(calls, Call.WithId(x), ResetsId) {
      DecidedByLast(calls, Call.WithId(x), ResetsId);
    }
    forall a: Address ensures s.source == Some(a) <==> DecidedBy(calls, Call.WithSource(a), ResetsSource) {
      DecidedByLast(calls, Call.WithSource(a), ResetsSource);
    }
    forall a: Address ensures s.destination == Some(a) <==> DecidedBy(calls, Call.WithDestination(a), ResetsDestination) {
      DecidedByLast(calls, Call.WithDestination(a), ResetsDestination);
    }
  }

  lemma RangeStaysNormal(before: Filters, calls: seq<Call>)
    requires calls != [] && RangeNormal(before, calls[..|calls| - 1])
    ensures RangeNormal(Apply(before, calls[|calls| - 1]), calls)
  {}

  // The selector built by any call sequence, field by field.
  lemma {:induction false} BuilderNormalForm(calls: seq<Call>)
    ensures var s := ApplyAll(DEFAULT_FILTERS, calls);
      && PartiesNormal(s, calls)
      && (s.id.Some? ==> s.source.None? && s.destination.None?)
      && s.allowedStates == AllStates(calls)
      && RangeNormal(s, calls)
  {
    hide PartiesNormal, RangeNormal;
    if calls == [] {
      NothingBuilt();
    } else {
      var init := calls[..|calls| - 1];
      BuilderNormalForm(init);
      PartiesStayNormal(ApplyAll(DEFAULT_FILTERS, init), calls);
      RangeStaysNormal(ApplyAll(DEFAULT_FILTERS, init), calls);
    }
  }

  lemma NothingBuilt()
    ensures PartiesNormal(DEFAULT_FILTERS, []) && RangeNormal(DEFAULT_FILTERS, [])
  {}

  // The states and the closure range, spelled out: no states allow everything, and a closure time is
  // only looked at where closing channels were asked for.
  predicate StatusPasses(s: Filters, status: ChannelStatus) {
    s.allowedStates == []
    || match status
       case IsOpen => Open in s.allowedStates
       case IsClosed => Closed in s.allowedStates
       case IsPendingToClose(time) =>
         && PendingToClose in s.allowedStates
         && (s.closureTimeRange.lower.Included? ==> s.closureTimeRange.lower.time <= time)
         && (s.closureTimeRange.lower.Excluded? ==> s.closureTimeRange.lower.time < time)
         && (s.closureTimeRange.upper.Included? ==> time <= s.closureTimeRange.upper.time)
         && (s.closureTimeRange.upper.Excluded? ==> time < s.closureTimeRange.upper.time)
  }

  // Which channels a selector accepts, whatever its fields: an id hides the parties.
  lemma SelectorsAccept(s: Filters, c: Channel)
    ensures Accepts(s, c) <==>
      && (s.id.Some? ==> IdOf(c.source, c.destination) == s.id.value)
      && (s.id.None? && s.source.Some? ==> c.source == s.source.value)
      && (s.id.None? && s.destination.Some? ==> c.destination == s.destination.value)
      && StatusPasses(s, c.status)
  {}

  // Of a built selector, every filter counts: the precedence of the id never hides another filter.
  lemma BuiltSelectorsConjoinFilters(calls: seq<Call>, c: Channel)
    ensures var s := ApplyAll(DEFAULT_FILTERS, calls);
      Accepts(s, c) <==>
        && (s.id.Some? ==> IdOf(c.source, c.destination) == s.id.value)
        && (s.source.Some? ==> c.source == s.source.value)
        && (s.destination.Some? ==> c.destination == s.destination.value)
        && StatusPasses(s, c.status)
  {
    BuilderNormalForm(calls);
    SelectorsAccept(ApplyAll(DEFAULT_FILTERS, calls), c);
  }

  // ---- The selector of a redemption over several channels ----

  function RedemptionFilters(base: Option<Filters>, me: Address, now: DateTime, grace: Option<nat>): Filters {
    ApplyAll(Apply(if base.Some? then base.value else DEFAULT_FILTERS, Call.WithDestination(me)), RedeemableCalls(now, grace))
  }

  // Incoming, and open or closing no earlier than the deadline.
  predicate RedeemableBy(c: Channel, me: Address, deadline: DateTime) {
    c.destination == me && (c.status.IsOpen? || (c.status.IsPendingToClose? && c.status.closureTime >= deadline))
  }

  // Every instant from the deadline on lies in the range.
  predicate CoversFrom(range: Range, deadline: DateTime) {
    && range.upper.Unbounded?
    && match range.lower
       case Included(t) => t <= deadline
       case Excluded(t) => t < deadline
       case Unbounded => true
  }

  // A base selector that only restricts the counterparty, or repeats what redemption asks for anyway. An
  // id does so only beside the source it names, which no builder call sequence leaves in place.
  predicate Narrows(base: Filters, me: Address, deadline: DateTime) {
    && (if base.id.Some? then base.source.Some? && base.id.value == IdOf(base.source.value, me)
        else Passes(base.destination, me))
    && StatesNarrow(base, deadline)
  }

  // No states, or those redemption asks for with a range covering the deadline.
  predicate StatesNarrow(base: Filters, deadline: DateTime) {
    || base.allowedStates == []
    || (Open in base.allowedStates && PendingToClose in base.allowedStates && Closed !in base.allowedStates
        && CoversFrom(base.closureTimeRange, deadline))
  }

  lemma RedemptionFiltersAre(base: Filters, me: Address, now: DateTime, grace: Option<nat>)
    ensures RedemptionFilters(Some(base), me, now, grace)
         == Filters(base.source, Some(me), None, base.allowedStates + [Open, PendingToClose],
                    Range(Included(Deadline(now, grace)), Unbounded))
  {
    var calls := RedeemableCalls(now, grace);
    var start := Apply(base, Call.WithDestination(me));
    assert calls[..1] == [calls[0]] && calls[..1][..0] == [];
    assert ApplyAll(start, calls[..1]) == Apply(start, calls[0]);
  }

  // What a redemption selects: incoming channels, of the source its base selector names, if any, that are
  // open, close no sooner than the grace period from now, or are closed and asked for.
  ghost predicate Selected(base: Option<Filters>, me: Address, now: DateTime, grace: Option<nat>, c: Channel) {
    && c.destination == me
    && (base.Some? && base.value.source.Some? ==> c.source == base.value.source.value)
    && match c.status
       case IsOpen => true
       case IsPendingToClose(time) => if grace.Some? then time >= now + grace.value else time >= now
       case IsClosed => base.Some? && Closed in base.value.allowedStates
  }

  lemma RedemptionSelects(base: Option<Filters>, me: Address, now: DateTime, grace: Option<nat>, c: Channel)
    ensures Accepts(RedemptionFilters(base, me, now, grace), c) <==> Selected(base, me, now, grace, c)
  {
    var given := if base.Some? then base.value else DEFAULT_FILTERS;
    assert RedemptionFilters(base, me, now, grace) == RedemptionFilters(Some(given), me, now, grace);
    RedemptionFiltersAre(given, me, now, grace);
  }

  // Redemption is meant to visit the redeemable incoming channels that also match the caller's
  // selector. It does so, for every channel, exactly for the selectors that narrow.
  lemma RedemptionSelectsExactly(base: Filters, me: Address, now: DateTime, grace: Option<nat>)
    ensures (forall c :: Accepts(RedemptionFilters(Some(base), me, now, grace), c)
                    <==> Accepts(base, c) && RedeemableBy(c, me, Deadline(now, grace)))
       <==> Narrows(base, me, Deadline(now, grace))
  {
    var built, deadline := RedemptionFilters(Some(base), me, now, grace), Deadline(now, grace);
    RedemptionFiltersAre(base, me, now, grace);
    if !Narrows(base, me, deadline) {
      var c := Overreach(base, me, deadline);
      assert Accepts(built, c) && !(Accepts(base, c) && RedeemableBy(c, me, deadline));
    }
  }

  // A channel that redemption visits although the caller's selector excludes it, or although it is closed.
  function Overreach(base: Filters, me: Address, deadline: DateTime): (c: Channel)
    requires !Narrows(base, me, deadline)
    ensures Accepts(Filters(base.source, Some(me), None, base.allowedStates + [Open, PendingToClose],
                            Range(Included(deadline), Unbounded)), c)
    ensures !(Accepts(base, c) && RedeemableBy(c, me, deadline))
  {
    var source :=
      if base.source.Some? then base.source.value
      else if base.id.Some? && base.id.value.IdOf? then base.id.value.source + 1
      else 0;
    if base.id.Some? && base.id.value != IdOf(source, me) then Channel(source, me, IsOpen)
    else if base.id.None? && !Passes(base.destination, me) then Channel(source, me, IsOpen)
    else if Closed in base.allowedStates then Channel(source, me, IsClosed)
    else if Open !in base.allowedStates then Channel(source, me, IsOpen)
    else if PendingToClose !in base.allowedStates then Channel(source, me, IsPendingToClose(deadline))
    else Channel(source, me, IsPendingToClose(Outside(base.closureTimeRange, deadline)))
  }

  function Outside(range: Range, deadline: DateTime): (t: DateTime)
    requires !CoversFrom(range, deadline)
    ensures t >= deadline && !Contains(range, t)
  {
    match range.upper
    case Included(u) => if u < deadline then deadline else u + 1
    case Excluded(u) => if u < deadline then deadline else u
    case Unbounded => deadline
  }

  // What the builder can build narrows only without an id, which redemption always ignores.
  lemma BuiltSelectorsNarrow(calls: seq<Call>, me: Address, deadline: DateTime)
    ensures var s := ApplyAll(DEFAULT_FILTERS, calls);
      Narrows(s, me, deadline) <==> s.id.None? && Passes(s.destination, me) && StatesNarrow(s, deadline)
  {
    BuilderNormalForm(calls);
  }

  // Both callers in the node API pass selectors that narrow: none, and issuer plus this node.
  lemma NodeCallersNarrow(issuer: Address, me: Address, deadline: DateTime)
    ensures Narrows(DEFAULT_FILTERS, me, deadline)
    ensures Narrows(ApplyAll(DEFAULT_FILTERS, [Call.WithSource(issuer), Call.WithDestination(me)]), me, deadline)
  {
    var calls := [Call.WithSource(issuer), Call.WithDestination(me)];
    assert calls[..1] == [calls[0]] && calls[..1][..0] == [];
    assert ApplyAll(DEFAULT_FILTERS, calls[..1]) == Apply(DEFAULT_FILTERS, calls[0]);
  }
}
