/**
 The event KPI query: matched events are sorted, counted into the windows of one
 axis, and counted again per group on the same axis.
 */
module KpiQuery {
  import opened Wrappers
  import opened KpiWindows
  import opened WeightedSums

  datatype GroupBy = Platform | EventType | Target

  datatype Event = Event(ts: nat, platform: string, eventType: string, target: string)

  datatype Query = Query(
    interval: Interval,
    from: Option<nat>,
    to: Option<nat>,
    platform: Option<string>,
    eventType: Option<string>,
    target: Option<string>,
    groupBy: Option<GroupBy>)

  datatype Bucket = Bucket(start: int, count: nat)

  datatype Series = Series(group: Option<string>, total: nat, buckets: seq<Bucket>)

  datatype Group = Group(key: string, events: seq<Event>)

  datatype Result = Result(from: Option<nat>, to: Option<nat>, total: nat, series: seq<Series>)

  const AXIS_LIMIT: nat := 1_000_000

  // ---------------------------------------------------------------------------
  // Matching and ordering events
  // ---------------------------------------------------------------------------

  predicate Agrees(wanted: Option<string>, value: string) {
    wanted.None? || wanted.value == value
  }

  predicate Matches(e: Event, q: Query) {
    && Agrees(q.platform, e.platform)
    && Agrees(q.eventType, e.eventType)
    && Agrees(q.target, e.target)
    && (q.from.Some? ==> q.from.value <= e.ts)
    && (q.to.Some? ==> e.ts <= q.to.value)
  }

  function Matching(es: seq<Event>, q: Query): (r: seq<Event>)
    ensures forall i :: 0 <= i < |r| ==> Matches(r[i], q)
  {
    if es == [] then []
    else
      var rest := Matching(es[..|es| - 1], q);
      if Matches(es[|es| - 1], q) then rest + [es[|es| - 1]] else rest
  }

  function Earlier(): (Event, Event) -> bool {
    (x: Event, y: Event) => x.ts < y.ts
  }

  function Timestamp(): Event -> int {
    (e: Event) => e.ts
  }

  function Ordering(es: seq<Event>): seq<Event> {
    Sorted(es, Earlier())
  }

  // ---------------------------------------------------------------------------
  // The axis
  // ---------------------------------------------------------------------------

  function Starts(interval: Interval, first: int, n: nat): seq<int> {
    if n == 0 then [] else Starts(interval, first, n - 1) + [Start(interval, first + n - 1)]
  }

  lemma {:induction false} StartsAt(interval: Interval, first: int, n: nat)
    ensures |Starts(interval, first, n)| == n
    ensures forall k :: 0 <= k < n ==> Starts(interval, first, n)[k] == Start(interval, first + k)
  {
    hide Start;
    if n > 0 { StartsAt(interval, first, n - 1); }
  }

  function AxisLength(first: int, last: int): nat {
    if last < first then 0 else if last - first + 1 > AXIS_LIMIT then AXIS_LIMIT else last - first + 1
  }

  function Axis(lower: Option<nat>, upper: Option<nat>, interval: Interval): seq<int> {
    if lower.None? || upper.None? then []
    else
      var first := Index(interval, lower.value);
      Starts(interval, first, AxisLength(first, Index(interval, upper.value)))
  }

  lemma CursorPasses(interval: Interval, i: int, last: int)
    ensures Start(interval, i) <= Start(interval, last) <==> i <= last
  {
    if i <= last { StartsOrderedWeakly(interval, i, last); } else { StartsOrdered(interval, last, i); }
  }

  method Advance(cursor: int, interval: Interval, ghost at: int) returns (next: int)
    requires cursor == Start(interval, at) && (interval.Month? ==> 12 * 1970 <= at)
    ensures next == Start(interval, at + 1)
  {
    NextIsStart(at, interval);
    next := NextWindow(cursor, interval);
  }

  /** The loop over windows, from window `first` until it has passed window `last` or filled the axis. */
  method WalkWindows(start: int, end: int, interval: Interval, ghost first: int, ghost last: int)
    returns (axis: seq<int>)
    requires interval.Month? ==> 12 * 1970 <= first
    requires start == Start(interval, first) && end == Start(interval, last)
    ensures axis == Starts(interval, first, AxisLength(first, last))
  {
    hide Start;
    axis := [];
    var cursor := start;
    var guard := 0;
    ghost var at := first;
    CursorPasses(interval, at, last);
    while cursor <= end && guard < AXIS_LIMIT
      invariant 0 <= guard <= AXIS_LIMIT && at == first + guard && (guard == 0 || at <= last + 1)
      invariant cursor == Start(interval, at)
      invariant cursor <= end <==> at <= last
      invariant axis == Starts(interval, first, guard)
      decreases AXIS_LIMIT - guard
    {
      axis := axis + [cursor];
      cursor := Advance(cursor, interval, at);
      guard, at := guard + 1, at + 1;
      CursorPasses(interval, at, last);
    }
  }

  /** The axis is a run of consecutive window starts, at most AXIS_LIMIT of them. */
  method BuildWindowAxis(lower: Option<nat>, upper: Option<nat>, interval: Interval) returns (axis: seq<int>)
    ensures axis == Axis(lower, upper, interval)
  {
    if lower.None? || upper.None? { return []; }
    FloorIsStart(lower.value, interval);
    FromYear1970(lower.value, interval);
    FloorIsStart(upper.value, interval);
    axis := WalkWindows(FloorToWindow(lower.value, interval), FloorToWindow(upper.value, interval), interval,
                        Index(interval, lower.value), Index(interval, upper.value));
  }

  // ---------------------------------------------------------------------------
  // Counting
  // ---------------------------------------------------------------------------

  /** Weighs an event by whether it falls into the window that starts at `start`. */
  function AtStart(interval: Interval, start: int): Event -> nat {
    (e: Event) => if FloorToWindow(e.ts, interval) == start then 1 else 0
  }

  function CountAt(es: seq<Event>, interval: Interval, start: int): nat {
    Sum(es, AtStart(interval, start))
  }

  function SeriesOf(group: Option<string>, es: seq<Event>, axis: seq<int>, interval: Interval): Series {
    Series(group, |es|, seq(|axis|, k requires 0 <= k < |axis| => Bucket(axis[k], CountAt(es, interval, axis[k]))))
  }

  function Tally(counts: map<int, nat>, start: int): nat {
    if start in counts then counts[start] else 0
  }

  lemma CountNext(es: seq<Event>, interval: Interval, i: nat, start: int)
    requires i < |es|
    ensures CountAt(es[..i + 1], interval, start) == CountAt(es[..i], interval, start) + AtStart(interval, start)(es[i])
  {
    assert es[..i + 1][..i] == es[..i];
  }

  method CountWindows(es: seq<Event>, interval: Interval) returns (counts: map<int, nat>)
    ensures forall start :: Tally(counts, start) == CountAt(es, interval, start)
  {
    counts := map[];
    for i := 0 to |es|
      invariant forall start :: Tally(counts, start) == CountAt(es[..i], interval, start)
    {
      var start := FloorToWindow(es[i].ts, interval);
      ghost var before := counts;
      counts := counts[start := Tally(counts, start) + 1];
      forall other ensures Tally(counts, other) == CountAt(es[..i + 1], interval, other) {
        assert Tally(before, other) == CountAt(es[..i], interval, other);
        CountNext(es, interval, i, other);
      }
    }
    assert es[..|es|] == es;
  }

  /** The map of counts read back along the axis is the count of each window. */
  method BuildSeries(group: Option<string>, es: seq<Event>, axis: seq<int>, interval: Interval)
    returns (series: Series)
    ensures series == SeriesOf(group, es, axis, interval)
  {
    var counts := CountWindows(es, interval);
    var buckets := [];
    for k := 0 to |axis|
      invariant |buckets| == k
      invariant forall j :: 0 <= j < k ==> buckets[j] == Bucket(axis[j], CountAt(es, interval, axis[j]))
    {
      buckets := buckets + [Bucket(axis[k], Tally(counts, axis[k]))];
    }
    series := Series(group, |es|, buckets);
    assert buckets == SeriesOf(group, es, axis, interval).buckets;
  }

  // ---------------------------------------------------------------------------
  // Groups
  // ---------------------------------------------------------------------------

  function GroupValue(e: Event, field: GroupBy): string {
    match field
    case Platform => e.platform
    case EventType => e.eventType
    case Target => e.target
  }

  function AddTo(gs: seq<Group>, key: string, e: Event): seq<Group> {
    if gs == [] then [Group(key, [e])]
    else if gs[0].key == key then gs[0 := Group(key, gs[0].events + [e])]
    else [gs[0]] + AddTo(gs[1..], key, e)
  }

  function GroupsOf(es: seq<Event>, field: GroupBy): seq<Group> {
    if es == [] then []
    else AddTo(GroupsOf(es[..|es| - 1], field), GroupValue(es[|es| - 1], field), es[|es| - 1])
  }

  method GroupEvents(es: seq<Event>, field: GroupBy) returns (out: seq<Group>)
    ensures out == GroupsOf(es, field)
  {
    out := [];
    for i := 0 to |es|
      invariant out == GroupsOf(es[..i], field)
    {
      assert es[..i + 1][..i] == es[..i];
      out := AddTo(out, GroupValue(es[i], field), es[i]);
    }
    assert es[..|es|] == es;
  }

  /** The events that carry a key, in their order. */
  function Carrying(es: seq<Event>, field: GroupBy, key: string): seq<Event> {
    if es == [] then []
    else
      var rest := Carrying(es[..|es| - 1], field, key);
      if GroupValue(es[|es| - 1], field) == key then rest + [es[|es| - 1]] else rest
  }

  /** What one key's group holds: nothing when there is no such group. */
  function Held(gs: seq<Group>, key: string): seq<Event> {
    if gs == [] then [] else if gs[0].key == key then gs[0].events else Held(gs[1..], key)
  }

  predicate Distinct(gs: seq<Group>) {
    forall i, j :: 0 <= i < j < |gs| ==> gs[i].key != gs[j].key
  }

  predicate Filled(gs: seq<Group>) {
    forall i :: 0 <= i < |gs| ==> gs[i].events != []
  }

  lemma {:induction false} AddToHeld(gs: seq<Group>, key: string, e: Event, other: string)
    ensures Held(AddTo(gs, key, e), other) == if other == key then Held(gs, key) + [e] else Held(gs, other)
  {
    if gs != [] && gs[0].key != key { AddToHeld(gs[1..], key, e, other); }
  }

  lemma {:induction false} AddToKeys(gs: seq<Group>, key: string, e: Event, other: string)
    requires forall i :: 0 <= i < |gs| ==> gs[i].key != other
    requires key != other
    ensures forall i :: 0 <= i < |AddTo(gs, key, e)| ==> AddTo(gs, key, e)[i].key != other
  {
    if gs != [] && gs[0].key != key { AddToKeys(gs[1..], key, e, other); }
  }

  lemma {:induction false} AddToShape(gs: seq<Group>, key: string, e: Event)
    requires Distinct(gs) && Filled(gs)
    ensures Distinct(AddTo(gs, key, e)) && Filled(AddTo(gs, key, e))
  {
    if gs != [] && gs[0].key != key {
      AddToShape(gs[1..], key, e);
      AddToKeys(gs[1..], key, e, gs[0].key);
    }
  }

  lemma {:induction false} HeldAt(gs: seq<Group>, i: nat)
    requires Distinct(gs) && i < |gs|
    ensures Held(gs, gs[i].key) == gs[i].events
  {
    if i > 0 { HeldAt(gs[1..], i - 1); }
  }

  lemma {:induction false} GroupsHeld(es: seq<Event>, field: GroupBy, key: string)
    ensures Held(GroupsOf(es, field), key) == Carrying(es, field, key)
  {
    if es != [] {
      GroupsHeld(es[..|es| - 1], field, key);
      AddToHeld(GroupsOf(es[..|es| - 1], field), GroupValue(es[|es| - 1], field), es[|es| - 1], key);
    }
  }

  lemma {:induction false} GroupsShape(es: seq<Event>, field: GroupBy)
    ensures Distinct(GroupsOf(es, field)) && Filled(GroupsOf(es, field))
  {
    if es != [] {
      GroupsShape(es[..|es| - 1], field);
      AddToShape(GroupsOf(es[..|es| - 1], field), GroupValue(es[|es| - 1], field), es[|es| - 1]);
    }
  }

  /** Each group is one key, never empty, with exactly the events that carry it, in order. */
  lemma GroupsAreClasses(es: seq<Event>, field: GroupBy)
    ensures Distinct(GroupsOf(es, field)) && Filled(GroupsOf(es, field))
    ensures forall i :: 0 <= i < |GroupsOf(es, field)| ==>
      GroupsOf(es, field)[i].events == Carrying(es, field, GroupsOf(es, field)[i].key)
  {
    GroupsShape(es, field);
    var gs := GroupsOf(es, field);
    forall i | 0 <= i < |gs| ensures gs[i].events == Carrying(es, field, gs[i].key) {
      HeldAt(gs, i);
      GroupsHeld(es, field, gs[i].key);
    }
  }

  lemma {:induction false} CarryingHas(es: seq<Event>, field: GroupBy, key: string, e: Event)
    ensures e in Carrying(es, field, key) <==> e in es && GroupValue(e, field) == key
  {
    if es != [] {
      CarryingHas(es[..|es| - 1], field, key, e);
      assert es == es[..|es| - 1] + [es[|es| - 1]];
    }
  }

  lemma {:induction false} HeldSomewhere(gs: seq<Group>, key: string)
    requires Held(gs, key) != []
    ensures exists g :: 0 <= g < |gs| && gs[g].events == Held(gs, key)
  {
    if gs[0].key != key {
      HeldSomewhere(gs[1..], key);
      var g :| 0 <= g < |gs[1..]| && gs[1..][g].events == Held(gs[1..], key);
      assert gs[g + 1].events == Held(gs, key);
    }
  }

  predicate Alike(e: Event, f: Event, field: GroupBy) {
    && (field.Platform? ==> e.platform == f.platform)
    && (field.EventType? ==> e.eventType == f.eventType)
    && (field.Target? ==> e.target == f.target)
  }

  predicate Together(gs: seq<Group>, g: nat, e: Event, f: Event)
    requires g < |gs|
  {
    e in gs[g].events && f in gs[g].events
  }

  /** Two events share a group exactly when they agree on the field that is grouped by. */
  lemma SharedGroupIff(es: seq<Event>, field: GroupBy, i: nat, j: nat)
    requires i < |es| && j < |es|
    ensures (exists g :: 0 <= g < |GroupsOf(es, field)| && Together(GroupsOf(es, field), g, es[i], es[j]))
       <==> Alike(es[i], es[j], field)
  {
    hide GroupsOf, Carrying;
    var gs, key := GroupsOf(es, field), GroupValue(es[i], field);
    GroupsAreClasses(es, field);
    forall g | 0 <= g < |gs| && Together(gs, g, es[i], es[j]) ensures Alike(es[i], es[j], field) {
      CarryingHas(es, field, gs[g].key, es[i]);
      CarryingHas(es, field, gs[g].key, es[j]);
    }
    if Alike(es[i], es[j], field) {
      CarryingHas(es, field, key, es[i]);
      CarryingHas(es, field, key, es[j]);
      GroupsHeld(es, field, key);
      HeldSomewhere(gs, key);
      var g :| 0 <= g < |gs| && gs[g].events == Held(gs, key);
      assert Together(gs, g, es[i], es[j]);
    }
  }

  /** Weighs a group by its events. */
  function GroupWeight(weight: Event -> nat): Group -> nat {
    (g: Group) => Sum(g.events, weight)
  }

  lemma {:induction false} AddToSum(gs: seq<Group>, key: string, e: Event, weight: Event -> nat)
    ensures Sum(AddTo(gs, key, e), GroupWeight(weight)) == Sum(gs, GroupWeight(weight)) + weight(e)
  {
    if gs == [] {
      SumOne(Group(key, [e]), GroupWeight(weight));
      SumOne(e, weight);
    } else {
      var g, rest := gs[0], gs[1..];
      assert gs == [g] + rest;
      SumAppend([g], rest, GroupWeight(weight));
      SumOne(g, GroupWeight(weight));
      if g.key == key {
        var grown := Group(key, g.events + [e]);
        assert gs[0 := grown] == [grown] + rest;
        SumAppend([grown], rest, GroupWeight(weight));
        SumOne(grown, GroupWeight(weight));
        SumAppend(g.events, [e], weight);
        SumOne(e, weight);
      } else {
        AddToSum(rest, key, e, weight);
        SumAppend([g], AddTo(rest, key, e), GroupWeight(weight));
      }
    }
  }

  lemma SumOne<T>(x: T, weight: T -> nat)
    ensures Sum([x], weight) == weight(x)
  {
    assert [x][..0] == [];
  }

  /** Grouping loses and invents nothing, however events are weighed. */
  lemma {:induction false} GroupsConserve(es: seq<Event>, field: GroupBy, weight: Event -> nat)
    ensures Sum(GroupsOf(es, field), GroupWeight(weight)) == Sum(es, weight)
  {
    if es != [] {
      GroupsConserve(es[..|es| - 1], field, weight);
      AddToSum(GroupsOf(es[..|es| - 1], field), GroupValue(es[|es| - 1], field), es[|es| - 1], weight);
    }
  }

  // ---------------------------------------------------------------------------
  // Windows conserve events
  // ---------------------------------------------------------------------------

  function InWindow(interval: Interval, i: int): Event -> nat {
    (e: Event) => if Index(interval, e.ts) == i then 1 else 0
  }

  function Within(interval: Interval, first: int, n: nat): Event -> nat {
    (e: Event) => if first <= Index(interval, e.ts) < first + n then 1 else 0
  }

  function CountingAt(es: seq<Event>, interval: Interval): int -> nat {
    (start: int) => CountAt(es, interval, start)
  }

  function BucketCount(): Bucket -> nat {
    (b: Bucket) => b.count
  }

  lemma AtStartIff(e: Event, interval: Interval, i: int)
    ensures AtStart(interval, Start(interval, i))(e) == InWindow(interval, i)(e)
  {
    FloorIsStart(e.ts, interval);
    if Start(interval, Index(interval, e.ts)) == Start(interval, i) {
      StartIsInjective(interval, Index(interval, e.ts), i);
    }
  }

  lemma CountIsIndex(es: seq<Event>, interval: Interval, i: int)
    ensures CountAt(es, interval, Start(interval, i)) == Sum(es, InWindow(interval, i))
  {
    forall k | 0 <= k < |es| ensures AtStart(interval, Start(interval, i))(es[k]) == InWindow(interval, i)(es[k]) {
      AtStartIff(es[k], interval, i);
    }
    SumSame(es, AtStart(interval, Start(interval, i)), InWindow(interval, i));
  }

  lemma WithinSplits(es: seq<Event>, interval: Interval, first: int, n: nat, at: int)
    requires n > 0 && at == first + n - 1
    ensures Sum(es, Within(interval, first, n)) ==
            Sum(es, Within(interval, first, n - 1)) + Sum(es, InWindow(interval, at))
  {
    SumPointwise(es, Within(interval, first, n), Within(interval, first, n - 1), InWindow(interval, at));
  }

  lemma {:induction false} WithinNone(es: seq<Event>, interval: Interval, first: int)
    ensures Sum(es, Within(interval, first, 0)) == 0
  {
    if es != [] { WithinNone(es[..|es| - 1], interval, first); }
  }

  /** The counts along an axis add up to the events that fall into its windows. */
  lemma {:induction false} AxisCounts(es: seq<Event>, interval: Interval, first: int, n: nat)
    ensures Sum(Starts(interval, first, n), CountingAt(es, interval)) == Sum(es, Within(interval, first, n))
  {
    hide Start, CountAt, Within, InWindow;
    if n == 0 {
      WithinNone(es, interval, first);
    } else {
      var at := first + n - 1;
      AxisCounts(es, interval, first, n - 1);
      SumAppend(Starts(interval, first, n - 1), [Start(interval, at)], CountingAt(es, interval));
      SumOne(Start(interval, at), CountingAt(es, interval));
      CountIsIndex(es, interval, at);
      WithinSplits(es, interval, first, n, at);
    }
  }

  lemma {:induction false} BucketsSum(group: Option<string>, es: seq<Event>, axis: seq<int>, interval: Interval)
    ensures Sum(SeriesOf(group, es, axis, interval).buckets, BucketCount()) == Sum(axis, CountingAt(es, interval))
  {
    if axis != [] {
      var shorter := axis[..|axis| - 1];
      BucketsSum(group, es, shorter, interval);
      var bs := SeriesOf(group, es, axis, interval).buckets;
      assert bs[..|bs| - 1] == SeriesOf(group, es, shorter, interval).buckets;
    }
  }

  lemma IndexIncreases(interval: Interval, ts: nat, u: nat)
    requires ts <= u
    ensures Index(interval, ts) <= Index(interval, u)
  {
    if Index(interval, u) < Index(interval, ts) {
      LaterWindow(Index(interval, ts), u, interval);
      FloorIsStart(ts, interval);
    }
  }

  // ---------------------------------------------------------------------------
  // The whole query
  // ---------------------------------------------------------------------------

  function Lower(es: seq<Event>, q: Query): Option<nat> {
    if q.from.Some? then q.from else if es != [] then Some(es[0].ts) else None
  }

  function Upper(es: seq<Event>, q: Query): Option<nat> {
    if q.to.Some? then q.to else if es != [] then Some(es[|es| - 1].ts) else None
  }

  /** Larger totals first, then the collation of the group names. */
  function Busier(collate: (string, string) -> int): (Series, Series) -> bool {
    (a: Series, b: Series) =>
      a.total > b.total || (a.total == b.total && collate(Name(a.group), Name(b.group)) < 0)
  }

  function Name(group: Option<string>): string {
    if group.Some? then group.value else ""
  }

  function GroupSeries(gs: seq<Group>, axis: seq<int>, interval: Interval): (r: seq<Series>)
    ensures |r| == |gs|
  {
    if gs == [] then []
    else
      var g := gs[|gs| - 1];
      GroupSeries(gs[..|gs| - 1], axis, interval) + [SeriesOf(Some(g.key), g.events, axis, interval)]
  }

  function Grouped(es: seq<Event>, axis: seq<int>, q: Query, collate: (string, string) -> int): seq<Series> {
    if q.groupBy.None? then []
    else Sorted(GroupSeries(GroupsOf(es, q.groupBy.value), axis, q.interval), Busier(collate))
  }

  function Answer(events: seq<Event>, q: Query, collate: (string, string) -> int): Result {
    var es := Ordering(Matching(events, q));
    var axis := Axis(Lower(es, q), Upper(es, q), q.interval);
    Result(Lower(es, q), Upper(es, q), |es|,
           [SeriesOf(None, es, axis, q.interval)] + Grouped(es, axis, q, collate))
  }

  method BuildGroupSeries(gs: seq<Group>, axis: seq<int>, interval: Interval) returns (r: seq<Series>)
    ensures r == GroupSeries(gs, axis, interval)
  {
    r := [];
    for i := 0 to |gs|
      invariant r == GroupSeries(gs[..i], axis, interval)
    {
      assert gs[..i + 1][..i] == gs[..i];
      var series := BuildSeries(Some(gs[i].key), gs[i].events, axis, interval);
      r := r + [series];
    }
    assert gs[..|gs|] == gs;
  }

  /** The loops together compute the specified answer. */
  method Events(events: seq<Event>, q: Query, collate: (string, string) -> int) returns (r: Result)
    ensures r == Answer(events, q, collate)
  {
    var es := Ordering(Matching(events, q));
    var lower, upper := Lower(es, q), Upper(es, q);
    var axis := BuildWindowAxis(lower, upper, q.interval);
    var overall := BuildSeries(None, es, axis, q.interval);
    var series := [overall];
    if q.groupBy.Some? {
      var gs := GroupEvents(es, q.groupBy.value);
      var grouped := BuildGroupSeries(gs, axis, q.interval);
      series := series + Sorted(grouped, Busier(collate));
    } else {
      assert series == series + [];
    }
    r := Result(lower, upper, |es|, series);
  }

  function MatchWeight(q: Query): Event -> nat {
    (e: Event) => if Matches(e, q) then 1 else 0
  }

  /** What the sorted events look like: as many as matched, all matching, in time order. */
  lemma OrderingHolds(events: seq<Event>, q: Query)
    ensures var es := Ordering(Matching(events, q));
      && |es| == |Matching(events, q)|
      && (forall i :: 0 <= i < |es| ==> Matches(es[i], q))
      && (forall i, j :: 0 <= i < j < |es| ==> es[i].ts <= es[j].ts)
  {
    var m := Matching(events, q);
    var es := Ordering(m);
    SortKeepsSums(m, Earlier(), MatchWeight(q));
    SumOfOnes(m, MatchWeight(q));
    SumOfOnes(es, MatchWeight(q));
    forall i | 0 <= i < |es| ensures Matches(es[i], q) {
      assert MatchWeight(q)(es[i]) == 1;
    }
    assert Respects(Earlier(), Timestamp());
    SortOrders(m, Earlier(), Timestamp());
    forall i, j | 0 <= i < j < |es| ensures es[i].ts <= es[j].ts {
      assert Timestamp()(es[i]) <= Timestamp()(es[j]);
    }
  }

  /** Every matched event lies between the bounds that the axis is built from. */
  lemma EventsInRange(events: seq<Event>, q: Query, i: nat)
    requires i < |Ordering(Matching(events, q))|
    ensures var es := Ordering(Matching(events, q));
      && Lower(es, q).Some? && Upper(es, q).Some?
      && Index(q.interval, Lower(es, q).value) <= Index(q.interval, es[i].ts)
      && Index(q.interval, es[i].ts) <= Index(q.interval, Upper(es, q).value)
  {
    OrderingHolds(events, q);
    var es := Ordering(Matching(events, q));
    assert Matches(es[i], q);
    IndexIncreases(q.interval, Lower(es, q).value, es[i].ts);
    IndexIncreases(q.interval, es[i].ts, Upper(es, q).value);
  }

  /** How many windows lie between the first of the axis and the latest matched event. */
  function Span(events: seq<Event>, q: Query): int {
    var es := Ordering(Matching(events, q));
    if es == [] || Lower(es, q).None? then 0
    else Index(q.interval, es[|es| - 1].ts) - Index(q.interval, Lower(es, q).value)
  }

  lemma AllCoveredIff(events: seq<Event>, q: Query, first: int, last: int)
    requires Matching(events, q) != []
    requires
      var es := Ordering(Matching(events, q));
      && Lower(es, q).Some? && first == Index(q.interval, Lower(es, q).value)
      && Upper(es, q).Some? && last == Index(q.interval, Upper(es, q).value)
    ensures
      var es := Ordering(Matching(events, q));
      && Sum(es, Within(q.interval, first, AxisLength(first, last))) <= |es|
      && (Sum(es, Within(q.interval, first, AxisLength(first, last))) == |es| <==> Span(events, q) < AXIS_LIMIT)
  {
    hide Index, Ordering, Matching, Sum;
    OrderingHolds(events, q);
    var es := Ordering(Matching(events, q));
    var w := Within(q.interval, first, AxisLength(first, last));
    forall i | 0 <= i < |es|
      ensures w(es[i]) == 1 <==> Index(q.interval, es[i].ts) - first < AXIS_LIMIT
      ensures Index(q.interval, es[i].ts) - first <= Span(events, q)
    {
      EventsInRange(events, q, i);
      IndexIncreases(q.interval, es[i].ts, es[|es| - 1].ts);
    }
    SumOfOnes(es, w);
    assert Index(q.interval, es[|es| - 1].ts) - first == Span(events, q);
  }

  /**
   Conservation: the overall buckets never exceed the total, and reach it exactly
   when the latest matched event is within the first AXIS_LIMIT windows.
   */
  lemma BucketsConserveEvents(events: seq<Event>, q: Query, collate: (string, string) -> int)
    ensures var r := Answer(events, q, collate);
      && r.total == r.series[0].total == |Matching(events, q)|
      && Sum(r.series[0].buckets, BucketCount()) <= r.total
      && (Sum(r.series[0].buckets, BucketCount()) == r.total <==> Span(events, q) < AXIS_LIMIT)
  {
    OrderingHolds(events, q);
    var es := Ordering(Matching(events, q));
    var axis := Axis(Lower(es, q), Upper(es, q), q.interval);
    BucketsSum(None, es, axis, q.interval);
    if es == [] {
      NoCounts(axis, q.interval);
    } else {
      EventsInRange(events, q, 0);
      var first, last := Index(q.interval, Lower(es, q).value), Index(q.interval, Upper(es, q).value);
      AxisCounts(es, q.interval, first, AxisLength(first, last));
      AllCoveredIff(events, q, first, last);
    }
  }

  function FarEvents(): (es: seq<Event>)
    ensures |es| == 2
  {
    [Event(0, "p", "e", "t"), Event(HOUR_MS * AXIS_LIMIT, "p", "e", "t")]
  }

  lemma SortedTwo(a: Event, b: Event)
    requires a.ts <= b.ts
    ensures Ordering([a, b]) == [a, b]
  {
    var empty: seq<Event> := [];
    assert [a][..0] == empty && [a, b][..1] == [a] && [a, b][1..] == [b] && [a][1..] == empty;
    assert Sorted(empty, Earlier()) == empty;
    assert Insert(empty, a, Earlier()) == [a];
    assert Sorted([a], Earlier()) == [a];
    assert Insert(empty, b, Earlier()) == [b];
    assert Insert([a], b, Earlier()) == [a, b];
  }

  /** Two events 1,000,000 hours apart: both are in the total, and one of them is in no bucket. */
  lemma FarEventIsUncounted(collate: (string, string) -> int)
    ensures
      var r := Answer(FarEvents(), Query(Hour, None, None, None, None, None, None), collate);
      r.total == 2 && Sum(r.series[0].buckets, BucketCount()) < 2
  {
    hide Answer, Span, Matching, FarEvents;
    var q := Query(Hour, None, None, None, None, None, None);
    FarSpan(q);
    BucketsConserveEvents(FarEvents(), q, collate);
  }

  lemma FarSpan(q: Query)
    requires q == Query(Hour, None, None, None, None, None, None)
    ensures Span(FarEvents(), q) == AXIS_LIMIT && |Matching(FarEvents(), q)| == 2
  {
    hide Matching, Ordering;
    var a, b := FarEvents()[0], FarEvents()[1];
    assert FarEvents() == [a, b];
    MatchingTwo(a, b, q);
    SortedTwo(a, b);
  }

  lemma MatchingTwo(a: Event, b: Event, q: Query)
    requires Matches(a, q) && Matches(b, q)
    ensures Matching([a, b], q) == [a, b]
  {
    hide Matches;
    assert [a, b][..1] == [a] && [a][..0] == [];
    assert Matching([a], q) == [a];
  }

  lemma {:induction false} NoCounts(axis: seq<int>, interval: Interval)
    ensures Sum(axis, CountingAt([], interval)) == 0
  {
    if axis != [] { NoCounts(axis[..|axis| - 1], interval); }
  }

  predicate Increasing(axis: seq<int>) {
    forall i, j :: 0 <= i < j < |axis| ==> axis[i] < axis[j]
  }

  lemma StartsIncreasing(interval: Interval, first: int, n: nat)
    ensures Increasing(Starts(interval, first, n)) && |Starts(interval, first, n)| == n
  {
    hide Start, Starts;
    StartsAt(interval, first, n);
    var axis := Starts(interval, first, n);
    forall i, j | 0 <= i < j < |axis| ensures axis[i] < axis[j] {
      StartsOrdered(interval, first + i, first + j);
    }
  }

  lemma AxisIncreasing(lower: Option<nat>, upper: Option<nat>, interval: Interval)
    ensures Increasing(Axis(lower, upper, interval)) && |Axis(lower, upper, interval)| <= AXIS_LIMIT
  {
    if lower.Some? && upper.Some? {
      var first := Index(interval, lower.value);
      StartsIncreasing(interval, first, AxisLength(first, Index(interval, upper.value)));
    }
  }

  /** The buckets of the overall series are strictly increasing, and at most AXIS_LIMIT. */
  lemma AxisHoldsWindows(events: seq<Event>, q: Query, collate: (string, string) -> int)
    ensures var bs := Answer(events, q, collate).series[0].buckets;
      && (forall i, j :: 0 <= i < j < |bs| ==> bs[i].start < bs[j].start)
      && |bs| <= AXIS_LIMIT
  {
    var es := Ordering(Matching(events, q));
    AxisIncreasing(Lower(es, q), Upper(es, q), q.interval);
  }

  lemma WindowOnAxis(interval: Interval, first: int, last: int, ts: nat, k: nat)
    requires first <= Index(interval, ts) <= last && k == Index(interval, ts) - first && k < AXIS_LIMIT
    ensures k < |Starts(interval, first, AxisLength(first, last))|
    ensures Starts(interval, first, AxisLength(first, last))[k] == FloorToWindow(ts, interval)
  {
    hide Starts, Start, Index, FloorToWindow;
    StartsAt(interval, first, AxisLength(first, last));
    FloorIsStart(ts, interval);
    assert first + k == Index(interval, ts);
  }

  /** Every matched event within the limit has its window among the buckets. */
  lemma EventWindowOnAxis(events: seq<Event>, q: Query, collate: (string, string) -> int, i: nat, k: nat)
    requires i < |Ordering(Matching(events, q))| && Span(events, q) < AXIS_LIMIT
    requires
      var es := Ordering(Matching(events, q));
      Lower(es, q).Some? && k == Index(q.interval, es[i].ts) - Index(q.interval, Lower(es, q).value)
    ensures
      var bs := Answer(events, q, collate).series[0].buckets;
      k < |bs| && bs[k].start == FloorToWindow(Ordering(Matching(events, q))[i].ts, q.interval)
  {
    hide Index, FloorToWindow, Start, Starts, Ordering, Matching;
    OrderingHolds(events, q);
    var es := Ordering(Matching(events, q));
    EventsInRange(events, q, i);
    IndexIncreases(q.interval, es[i].ts, es[|es| - 1].ts);
    WindowOnAxis(q.interval, Index(q.interval, Lower(es, q).value), Index(q.interval, Upper(es, q).value), es[i].ts, k);
  }

  // ---------------------------------------------------------------------------
  // Groups add up
  // ---------------------------------------------------------------------------

  function CountAtBucket(k: nat): Series -> nat {
    (s: Series) => if k < |s.buckets| then s.buckets[k].count else 0
  }

  function SeriesTotal(): Series -> nat {
    (s: Series) => s.total
  }

  function Unit(): Event -> nat {
    (e: Event) => 1
  }

  lemma {:induction false} UnitSum(es: seq<Event>)
    ensures Sum(es, Unit()) == |es|
  {
    if es != [] { UnitSum(es[..|es| - 1]); }
  }

  lemma {:induction false} SeriesSum(gs: seq<Group>, axis: seq<int>, interval: Interval, k: nat)
    requires k < |axis|
    ensures Sum(GroupSeries(gs, axis, interval), CountAtBucket(k)) == Sum(gs, GroupWeight(AtStart(interval, axis[k])))
  {
    if gs != [] { SeriesSum(gs[..|gs| - 1], axis, interval, k); }
  }

  lemma {:induction false} TotalSum(gs: seq<Group>, axis: seq<int>, interval: Interval)
    ensures Sum(GroupSeries(gs, axis, interval), SeriesTotal()) == Sum(gs, GroupWeight(Unit()))
  {
    if gs != [] {
      TotalSum(gs[..|gs| - 1], axis, interval);
      UnitSum(gs[|gs| - 1].events);
    }
  }

  /** Bucket by bucket, and in total, the group series add up to the overall series. */
  lemma GroupSeriesAddUp(events: seq<Event>, q: Query, collate: (string, string) -> int, k: nat)
    requires q.groupBy.Some?
    ensures var r := Answer(events, q, collate);
      && Sum(r.series[1..], SeriesTotal()) == r.total
      && (k < |r.series[0].buckets| ==> Sum(r.series[1..], CountAtBucket(k)) == r.series[0].buckets[k].count)
  {
    var es := Ordering(Matching(events, q));
    var axis := Axis(Lower(es, q), Upper(es, q), q.interval);
    var gs := GroupsOf(es, q.groupBy.value);
    var plain := GroupSeries(gs, axis, q.interval);
    assert Answer(events, q, collate).series[1..] == Sorted(plain, Busier(collate));
    SortKeepsSums(plain, Busier(collate), SeriesTotal());
    TotalSum(gs, axis, q.interval);
    GroupsConserve(es, q.groupBy.value, Unit());
    UnitSum(es);
    if k < |axis| {
      SortKeepsSums(plain, Busier(collate), CountAtBucket(k));
      SeriesSum(gs, axis, q.interval, k);
      GroupsConserve(es, q.groupBy.value, AtStart(q.interval, axis[k]));
    }
  }

  function FewerFirst(): Series -> int {
    (s: Series) => 0 - s.total
  }

  predicate Falling(series: seq<Series>) {
    forall i, j :: 0 <= i < j < |series| ==> series[i].total >= series[j].total
  }

  lemma BusiestFirst(plain: seq<Series>, collate: (string, string) -> int)
    ensures Falling(Sorted(plain, Busier(collate)))
  {
    hide Sorted;
    assert Respects(Busier(collate), FewerFirst());
    SortOrders(plain, Busier(collate), FewerFirst());
    var ranked := Sorted(plain, Busier(collate));
    forall i, j | 0 <= i < j < |ranked| ensures ranked[i].total >= ranked[j].total {
      assert FewerFirst()(ranked[i]) <= FewerFirst()(ranked[j]);
    }
  }

  /** Groups come busiest first, whatever the collation of their names. */
  lemma GroupsRanked(events: seq<Event>, q: Query, collate: (string, string) -> int)
    ensures var r := Answer(events, q, collate);
      forall i, j :: 1 <= i < j < |r.series| ==> r.series[i].total >= r.series[j].total
  {
    hide Ordering, Matching, Axis, GroupSeries, GroupsOf, SeriesOf, Sorted, Busier;
    var es := Ordering(Matching(events, q));
    var axis := Axis(Lower(es, q), Upper(es, q), q.interval);
    var r := Answer(events, q, collate);
    if q.groupBy.Some? {
      BusiestFirst(GroupSeries(GroupsOf(es, q.groupBy.value), axis, q.interval), collate);
      var ranked := Grouped(es, axis, q, collate);
      assert r.series[1..] == ranked && Falling(ranked);
      forall i, j | 1 <= i < j < |r.series| ensures r.series[i].total >= r.series[j].total {
        assert r.series[i] == ranked[i - 1] && r.series[j] == ranked[j - 1];
      }
    }
  }

  // ---------------------------------------------------------------------------
  // What a query asks for
  // ---------------------------------------------------------------------------

  /** The filters, each of them off when it is not given; both bounds belong to the range. */
  predicate Wanted(e: Event, q: Query) {
    && (match q.platform case None => true case Some(platform) => e.platform == platform)
    && (match q.eventType case None => true case Some(eventType) => e.eventType == eventType)
    && (match q.target case None => true case Some(target) => e.target == target)
    && (match q.from case None => true case Some(from) => from <= e.ts)
    && (match q.to case None => true case Some(to) => e.ts <= to)
  }

  function Filtered(q: Query, weight: Event -> nat): Event -> nat {
    (e: Event) => if Wanted(e, q) then weight(e) else 0
  }

  lemma {:induction false} MatchingSums(events: seq<Event>, q: Query, weight: Event -> nat)
    ensures Sum(Matching(events, q), weight) == Sum(events, Filtered(q, weight))
  {
    if events != [] {
      MatchingSums(events[..|events| - 1], q, weight);
      var rest, e := Matching(events[..|events| - 1], q), events[|events| - 1];
      assert (rest + [e])[..|rest|] == rest;
    }
  }

  /** The sorted events are exactly the wanted ones, with multiplicity: no weighing tells them apart. */
  lemma OrderedAreTheWanted(events: seq<Event>, q: Query, weight: Event -> nat)
    ensures Sum(Ordering(Matching(events, q)), weight) == Sum(events, Filtered(q, weight))
  {
    MatchingSums(events, q, weight);
    SortKeepsSums(Matching(events, q), Earlier(), weight);
  }

  /** The range of an answer: the bounds asked for, else the first and last event; buckets start at the lower one. */
  lemma RangeIs(events: seq<Event>, q: Query, collate: (string, string) -> int)
    ensures
      var es, r := Ordering(Matching(events, q)), Answer(events, q, collate);
      && (q.from.Some? ==> r.from == q.from) && (q.to.Some? ==> r.to == q.to)
      && (q.from.None? ==> (r.from.Some? <==> es != []) && (es != [] ==> r.from == Some(es[0].ts)))
      && (q.to.None? ==> (r.to.Some? <==> es != []) && (es != [] ==> r.to == Some(es[|es| - 1].ts)))
      && (r.from.None? || r.to.None? ==> r.series[0].buckets == [])
      && (r.series[0].buckets != [] ==>
            r.from.Some? && r.series[0].buckets[0].start == FloorToWindow(r.from.value, q.interval))
      && (r.from.Some? && r.to.Some? && r.from.value <= r.to.value ==> r.series[0].buckets != [])
  {
    hide Ordering, Matching, Index, FloorToWindow, Grouped, Start;
    var es := Ordering(Matching(events, q));
    var lower, upper := Lower(es, q), Upper(es, q);
    if lower.Some? && upper.Some? {
      var first, last := Index(q.interval, lower.value), Index(q.interval, upper.value);
      StartsAt(q.interval, first, AxisLength(first, last));
      FloorIsStart(lower.value, q.interval);
      if lower.value <= upper.value { IndexIncreases(q.interval, lower.value, upper.value); }
    }
  }

  /** Events of one instant stay in the order in which they were given. */
  lemma OrderingIsStable(events: seq<Event>, q: Query, ts: nat)
    ensures Pick(Ordering(Matching(events, q)), Timestamp(), ts) == Pick(Matching(events, q), Timestamp(), ts)
  {
    hide Matching, Pick;
    SortIsStable(Matching(events, q), Earlier(), Timestamp(), ts);
  }

  function Named(): Series -> nat {
    (s: Series) => if s.group.Some? then 1 else 0
  }

  lemma {:induction false} AllNamed(gs: seq<Group>, axis: seq<int>, interval: Interval)
    ensures Sum(GroupSeries(gs, axis, interval), Named()) == |gs|
  {
    if gs != [] {
      AllNamed(gs[..|gs| - 1], axis, interval);
      var init := GroupSeries(gs[..|gs| - 1], axis, interval);
      assert GroupSeries(gs, axis, interval)[..|gs| - 1] == init;
    }
  }

  /** The overall series has no name, and every other one has. */
  lemma GroupsAreNamed(events: seq<Event>, q: Query, collate: (string, string) -> int, i: nat)
    requires i < |Answer(events, q, collate).series|
    ensures Answer(events, q, collate).series[i].group.Some? <==> i > 0
    ensures i > 0 ==> q.groupBy.Some?
  {
    hide Ordering, Matching, Axis, GroupSeries, GroupsOf, Sorted, Busier;
    var es := Ordering(Matching(events, q));
    var axis := Axis(Lower(es, q), Upper(es, q), q.interval);
    if i > 0 {
      var gs := GroupsOf(es, q.groupBy.value);
      var plain := GroupSeries(gs, axis, q.interval);
      var ranked := Sorted(plain, Busier(collate));
      AllNamed(gs, axis, q.interval);
      SortKeepsSums(plain, Busier(collate), Named());
      SumOfOnes(ranked, Named());
      assert Answer(events, q, collate).series[i] == ranked[i - 1];
      assert Named()(ranked[i - 1]) == 1;
    }
  }

  /** Whatever compares names asymmetrically and transitively, groups as busy as each other come in its order. */
  lemma TiesGoByName(events: seq<Event>, q: Query, collate: (string, string) -> int, i: nat, j: nat)
    requires forall a, b :: collate(a, b) < 0 ==> !(collate(b, a) < 0)
    requires forall a, b, c :: collate(a, b) < 0 && collate(b, c) < 0 ==> collate(a, c) < 0
    requires 1 <= i < j < |Answer(events, q, collate).series|
    ensures
      var a, b := Answer(events, q, collate).series[i], Answer(events, q, collate).series[j];
      a.group.Some? && b.group.Some? && (a.total == b.total ==> !(collate(b.group.value, a.group.value) < 0))
  {
    hide Ordering, Matching, Axis, GroupSeries, GroupsOf, SeriesOf, Sorted;
    GroupsAreNamed(events, q, collate, i);
    GroupsAreNamed(events, q, collate, j);
    var es := Ordering(Matching(events, q));
    var axis := Axis(Lower(es, q), Upper(es, q), q.interval);
    var r := Answer(events, q, collate);
    BusierIsStrict(collate);
    if q.groupBy.Some? {
      SortIsInOrder(GroupSeries(GroupsOf(es, q.groupBy.value), axis, q.interval), Busier(collate));
      var ranked := Grouped(es, axis, q, collate);
      assert r.series[1..] == ranked;
      assert r.series[i] == ranked[i - 1] && r.series[j] == ranked[j - 1];
      assert !Busier(collate)(ranked[j - 1], ranked[i - 1]);
      if r.series[i].total == r.series[j].total { NotBusier(collate, ranked[j - 1], ranked[i - 1]); }
    }
  }

  lemma NotBusier(collate: (string, string) -> int, b: Series, a: Series)
    requires !Busier(collate)(b, a) && a.group.Some? && b.group.Some? && a.total == b.total
    ensures !(collate(b.group.value, a.group.value) < 0)
  {
    assert Name(b.group) == b.group.value && Name(a.group) == a.group.value;
    assert !(collate(Name(b.group), Name(a.group)) < 0);
  }

  lemma BusierIsStrict(collate: (string, string) -> int)
    requires forall a, b :: collate(a, b) < 0 ==> !(collate(b, a) < 0)
    requires forall a, b, c :: collate(a, b) < 0 && collate(b, c) < 0 ==> collate(a, c) < 0
    ensures Strict(Busier(collate))
  {
    hide Name;
    var before := Busier(collate);
    forall x, y | before(x, y) ensures !before(y, x) {
      assert x.total == y.total ==> collate(Name(x.group), Name(y.group)) < 0;
    }
    forall x, y, z | before(x, y) && before(y, z) ensures before(x, z) {
      assert x.total == y.total ==> collate(Name(x.group), Name(y.group)) < 0;
      assert y.total == z.total ==> collate(Name(y.group), Name(z.group)) < 0;
    }
  }
}
