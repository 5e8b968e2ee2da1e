/**
 The single-object coalescing queue of the GitHub client as a step system: any
 interleaving of new calls, timer flushes, slow balance reads and finishing
 requests.
 */
module Coalescer {
  import opened Wrappers
  import opened AliasedQuery
  import opened WeightedSums

  datatype Rail = Rest | Graphql

  /** What one rate pool reports; `fraction` is remaining / limit. */
  datatype Pool = Pool(remaining: int, fraction: real)

  /** An answered balance; a pool the endpoint did not report is None. */
  datatype Balance = Balance(rest: Option<Pool>, graphql: Option<Pool>)

  datatype Call = Call(id: nat, read: Read, cacheKey: string, rail: Option<Rail>)

  /** Calls waiting under one kind and rail, in arrival order. */
  datatype Group = Group(kind: Kind, rail: Option<Rail>, calls: seq<Call>)

  // ---------------------------------------------------------------------------
  // Routing one group
  // ---------------------------------------------------------------------------

  function Ceiling(x: real): int {
    -((-x).Floor)
  }

  /** The first batch size that stays on REST; None is infinity. */
  function Threshold(balance: Option<Balance>): Option<int> {
    if balance.None? || balance.value.rest.None? || balance.value.graphql.None? then None
    else
      var rest, graphql := balance.value.rest.value, balance.value.graphql.value;
      if graphql.remaining <= 0 || graphql.fraction <= 0.0 then None
      else if rest.remaining <= 0 || rest.fraction <= 0.0 then Some(1)
      else
        var t := Ceiling(rest.fraction / graphql.fraction);
        Some(if t < 1 then 1 else t)
  }

  lemma DivisionIsInverse(a: real, b: real, n: real)
    requires b > 0.0
    ensures n >= a / b <==> n * b >= a
  {
    assert (a / b) * b == a;
    if n >= a / b { MultiplyOrder(a / b, n, b); } else { MultiplyStrict(n, a / b, b); }
  }

  lemma MultiplyOrder(x: real, y: real, b: real)
    requires x <= y && b > 0.0
    ensures x * b <= y * b
  {
  }

  lemma MultiplyStrict(x: real, y: real, b: real)
    requires x < y && b > 0.0
    ensures x * b < y * b
  {
  }

  /**
   A group exceeds the threshold exactly when both pools are reported, GraphQL has
   room, the group is plural, and the REST headroom is gone or at most GraphQL's for
   one object fewer.
   */
  lemma ThresholdComparesHeadroom(balance: Option<Balance>, n: nat)
    ensures
      var t := Threshold(balance);
      (t.Some? && n > t.value) <==>
      && balance.Some? && balance.value.rest.Some? && balance.value.graphql.Some? && n >= 2
      && (var rest, graphql := balance.value.rest.value, balance.value.graphql.value;
          && graphql.remaining > 0 && graphql.fraction > 0.0
          && (rest.remaining <= 0 || rest.fraction <= 0.0 || (n - 1) as real * graphql.fraction >= rest.fraction))
  {
    if balance.Some? && balance.value.rest.Some? && balance.value.graphql.Some? {
      var rest, graphql := balance.value.rest.value, balance.value.graphql.value;
      if graphql.fraction > 0.0 { DivisionIsInverse(rest.fraction, graphql.fraction, (n - 1) as real); }
    }
  }

  datatype Decision = Refuse | Batch | OneByOne

  /**
   What the drain consults besides the group: the balance, the gate, the held
   validators, and the keys whose lookup throws.
   */
  datatype Facts = Facts(balance: Option<Balance>, gated: bool, held: set<string>, broken: set<string>)

  function PoolOf(balance: Option<Balance>, rail: Rail): Option<Pool> {
    if balance.None? then None else if rail.Rest? then balance.value.rest else balance.value.graphql
  }

  predicate AllHeld(g: Group, held: set<string>) {
    forall i :: 0 <= i < |g.calls| ==> g.calls[i].cacheKey in held
  }

  predicate SomeHeld(g: Group, held: set<string>) {
    exists i :: 0 <= i < |g.calls| && g.calls[i].cacheKey in held
  }

  predicate Spent(pool: Option<Pool>) {
    pool.Some? && pool.value.remaining <= 0
  }

  predicate HasRoom(pool: Option<Pool>) {
    pool.Some? && pool.value.remaining > 0
  }

  /** drainSingleObjectGroups for one group. */
  function Route(g: Group, facts: Facts): Decision {
    var requested := if g.rail.Some? then g.rail.value else Rest;
    var fallback := if requested.Rest? then Graphql else Rest;
    var source, destination := PoolOf(facts.balance, requested), PoolOf(facts.balance, fallback);
    var requestedCache := requested.Rest? && AllHeld(g, facts.held);
    var fallbackCache := fallback.Rest? && AllHeld(g, facts.held);
    var reroute := Spent(source) && (HasRoom(destination) || fallbackCache);
    if Spent(source) && !reroute && !requestedCache && facts.gated then Refuse
    else
      var selected := if reroute then fallback else requested;
      var t := Threshold(facts.balance);
      if selected.Graphql? || (g.rail.None? && !SomeHeld(g, facts.held) && t.Some? && |g.calls| > t.value)
      then Batch else OneByOne
  }

  predicate Left(pool: Option<Pool>, some: bool) {
    pool.Some? && (pool.value.remaining > 0 <==> some)
  }

  /**
   Where each group goes, on every rail. It is refused when its pool is spent, the other
   has no room and its keys are not all held, and the gate is on. An explicit GraphQL
   group shares a request unless it is refused or sent to REST; any other one when REST
   is spent and GraphQL has room, and on the default rail also when it is cold and
   exceeds the threshold. The rest go one by one.
   */
  lemma RouteIff(g: Group, facts: Facts)
    requires g.calls != []
    ensures
      var rest, graphql := PoolOf(facts.balance, Rest), PoolOf(facts.balance, Graphql);
      var own := if g.rail == Some(Graphql) then graphql else rest;
      var other := if g.rail == Some(Graphql) then rest else graphql;
      var warm := forall c <- g.calls :: c.cacheKey in facts.held;
      var cold := forall c <- g.calls :: c.cacheKey !in facts.held;
      var t := Threshold(facts.balance);
      && (Route(g, facts) == Refuse <==> Left(own, false) && !Left(other, true) && !warm && facts.gated)
      && (Route(g, facts) == Batch <==>
            if g.rail == Some(Graphql) then !Left(graphql, false) || (!Left(rest, true) && !warm && !facts.gated)
            else
              || (Left(rest, false) && Left(graphql, true))
              || (g.rail.None? && cold && !Left(rest, false) && t.Some? && |g.calls| > t.value))
  {
  }

  /**
   When a group with a held validator goes to charged GraphQL nodes, on every
   rail. The comment above the queue says it never does.
   */
  lemma HeldValidatorIsTradedIff(g: Group, facts: Facts)
    requires SomeHeld(g, facts.held)
    ensures
      var rest, graphql := PoolOf(facts.balance, Rest), PoolOf(facts.balance, Graphql);
      Route(g, facts) == Batch <==>
      if g.rail == Some(Graphql)
      then !Spent(graphql) || (!HasRoom(rest) && !AllHeld(g, facts.held) && !facts.gated)
      else Spent(rest) && HasRoom(graphql)
  {
  }

  /** One held validator on the default rail, traded because REST is spent. */
  lemma HeldValidatorIsTradedExample()
    ensures
      var call := Call(0, Read(Object(Issue, "o", "r", 1), "id"), "key", None);
      var g := Group(Issue, None, [call]);
      var facts := Facts(Some(Balance(Some(Pool(0, 0.0)), Some(Pool(1, 1.0)))), false, {"key"}, {});
      SomeHeld(g, facts.held) && Route(g, facts) == Batch
  {
    var call := Call(0, Read(Object(Issue, "o", "r", 1), "id"), "key", None);
    assert [call][0].cacheKey in {"key"};
  }

  /**
   A cold group on the default rail shares one GraphQL request exactly when REST
   is spent and GraphQL has room, or it is plural and GraphQL's headroom wins.
   */
  lemma ColdGroupIsBatchedIff(g: Group, facts: Facts)
    requires g.rail.None? && !SomeHeld(g, facts.held) && g.calls != []
    ensures
      var rest, graphql := PoolOf(facts.balance, Rest), PoolOf(facts.balance, Graphql);
      Route(g, facts) == Batch <==>
        || (Spent(rest) && HasRoom(graphql))
        || (&& HasRoom(rest) && HasRoom(graphql) && |g.calls| >= 2 && graphql.value.fraction > 0.0
            && (rest.value.fraction <= 0.0 || (|g.calls| - 1) as real * graphql.value.fraction >= rest.value.fraction))
  {
    ThresholdComparesHeadroom(facts.balance, |g.calls|);
  }

  // ---------------------------------------------------------------------------
  // Lookups that throw
  // ---------------------------------------------------------------------------

  function KeyAt(g: Group, i: nat): string
    requires i < |g.calls|
  {
    g.calls[i].cacheKey
  }

  /** Asking whether every key is held meets a broken key before an unheld one. */
  predicate EveryThrows(g: Group, facts: Facts) {
    exists i :: 0 <= i < |g.calls| && KeyAt(g, i) in facts.broken &&
      forall j :: 0 <= j < i ==> KeyAt(g, j) in facts.held
  }

  /** Asking whether some key is held meets a broken key before a held one. */
  predicate SomeThrows(g: Group, facts: Facts) {
    exists i :: 0 <= i < |g.calls| && KeyAt(g, i) in facts.broken &&
      forall j :: 0 <= j < i ==> KeyAt(g, j) !in facts.held
  }

  /** Every group asks the first question; a refused one does not reach the second. */
  predicate Throws(g: Group, facts: Facts) {
    EveryThrows(g, facts) || (Route(g, facts) != Refuse && SomeThrows(g, facts))
  }

  /** What asking for every or for some key ends in. */
  datatype Lookup = Threw | Said(answer: bool)

  /** Asking whether every key is held stops at the first that is not; asking whether some is, at the first that is. */
  function AskedOf(calls: seq<Call>, facts: Facts, every: bool): Lookup {
    if calls == [] then Said(every)
    else if calls[0].cacheKey in facts.broken then Threw
    else if (calls[0].cacheKey in facts.held) != every then Said(!every)
    else AskedOf(calls[1..], facts, every)
  }

  /** The first call, if any, at which asking stops. */
  lemma {:induction false} AskedEvery(g: Group, facts: Facts, n: nat)
    requires n <= |g.calls| && forall j :: 0 <= j < n ==> KeyAt(g, j) in facts.held && KeyAt(g, j) !in facts.broken
    ensures AskedOf(g.calls[n..], facts, true).Threw? <==> EveryThrows(g, facts)
    ensures !AskedOf(g.calls[n..], facts, true).Threw? ==>
      AskedOf(g.calls[n..], facts, true).answer == AllHeld(g, facts.held)
    decreases |g.calls| - n
  {
    if n < |g.calls| {
      assert g.calls[n..][0] == g.calls[n] && g.calls[n..][1..] == g.calls[n + 1..];
      assert KeyAt(g, n) == g.calls[n].cacheKey;
      if KeyAt(g, n) in facts.held && KeyAt(g, n) !in facts.broken { AskedEvery(g, facts, n + 1); }
    } else {
      forall i | 0 <= i < |g.calls| ensures g.calls[i].cacheKey in facts.held {
        assert KeyAt(g, i) in facts.held;
      }
    }
  }

  lemma {:induction false} AskedSome(g: Group, facts: Facts, n: nat)
    requires n <= |g.calls| && forall j :: 0 <= j < n ==> KeyAt(g, j) !in facts.held && KeyAt(g, j) !in facts.broken
    ensures AskedOf(g.calls[n..], facts, false).Threw? <==> SomeThrows(g, facts)
    ensures !AskedOf(g.calls[n..], facts, false).Threw? ==>
      AskedOf(g.calls[n..], facts, false).answer == SomeHeld(g, facts.held)
    decreases |g.calls| - n
  {
    if n < |g.calls| {
      assert g.calls[n..][0] == g.calls[n] && g.calls[n..][1..] == g.calls[n + 1..];
      assert KeyAt(g, n) == g.calls[n].cacheKey;
      if KeyAt(g, n) !in facts.held && KeyAt(g, n) !in facts.broken { AskedSome(g, facts, n + 1); }
    } else {
      forall i | 0 <= i < |g.calls| ensures g.calls[i].cacheKey !in facts.held {
        assert KeyAt(g, i) !in facts.held;
      }
    }
  }

  /**
   A group's lookups throw exactly when asking for every key throws, or the group is not
   refused and asking for some key throws; otherwise they tell what is held.
   */
  lemma ThrowsIff(g: Group, facts: Facts)
    ensures
      var every, some := AskedOf(g.calls, facts, true), AskedOf(g.calls, facts, false);
      && (Throws(g, facts) <==>
            every == Threw || (some == Threw && (Route(g, facts).Batch? || Route(g, facts).OneByOne?)))
      && (!Throws(g, facts) ==> every == Said(AllHeld(g, facts.held)))
      && (!Throws(g, facts) && Route(g, facts) != Refuse ==> some == Said(SomeHeld(g, facts.held)))
  {
    hide Route, EveryThrows, SomeThrows, AllHeld, SomeHeld;
    assert g.calls[0..] == g.calls;
    AskedEvery(g, facts, 0);
    AskedSome(g, facts, 0);
  }

  // ---------------------------------------------------------------------------
  // The queue
  // ---------------------------------------------------------------------------

  datatype Outcome = Resolved(row: Row) | Rejected

  /** A request in flight; it settles its calls when it ends, however it ends. */
  datatype Task = RestTask(call: Call) | BatchTask(calls: seq<Call>)

  /** What the server answers for each object when a request ends. */
  type World = Object -> Option<string>

  /**
   `timers` are zero-delay flushes not yet fired, `flushes` are flushes waiting
   for the balance, `catches` are flushes whose drain threw and that have yet to
   run their catch. `issued` remembers what each caller asked for, `stranded` the
   calls that a throwing drain dropped.
   */
  datatype State = State(
    pending: seq<Group>,
    scheduled: bool,
    timers: nat,
    flushes: nat,
    catches: nat,
    tasks: seq<Task>,
    stranded: seq<Call>,
    settled: map<nat, Outcome>,
    issued: map<nat, Call>)

  const Start := State([], false, 0, 0, 0, [], [], map[], map[])

  /** Rejections overwrite, so that a second settlement of a call would show. */
  function RejectEach(settled: map<nat, Outcome>, calls: seq<Call>): map<nat, Outcome> {
    if calls == [] then settled
    else RejectEach(settled, calls[..|calls| - 1])[calls[|calls| - 1].id := Rejected]
  }

  /** The catch of a batch rejects every caller, and a promise keeps its first settlement. */
  function RejectRest(settled: map<nat, Outcome>, calls: seq<Call>): map<nat, Outcome> {
    if calls == [] then settled
    else
      var before, id := RejectRest(settled, calls[..|calls| - 1]), calls[|calls| - 1].id;
      if id in before then before else before[id := Rejected]
  }

  /** Append to the call's group, opening it at the end of the map if it is new. */
  function Enqueued(groups: seq<Group>, c: Call): seq<Group> {
    if groups == [] then [Group(c.read.target.kind, c.rail, [c])]
    else if groups[0].kind == c.read.target.kind && groups[0].rail == c.rail then
      groups[0 := groups[0].(calls := groups[0].calls + [c])]
    else [groups[0]] + Enqueued(groups[1..], c)
  }

  function AllCalls(groups: seq<Group>): seq<Call> {
    if groups == [] then [] else groups[0].calls + AllCalls(groups[1..])
  }

  function OneByOneTasks(calls: seq<Call>): seq<Task> {
    seq(|calls|, i requires 0 <= i < |calls| => RestTask(calls[i]))
  }

  /** The requests one group starts. */
  function Requests(g: Group, facts: Facts): seq<Task> {
    if Throws(g, facts) then []
    else
      match Route(g, facts)
      case Refuse => []
      case Batch => [BatchTask(g.calls)]
      case OneByOne => OneByOneTasks(g.calls)
  }

  /** The requests a drain starts. */
  function Started(groups: seq<Group>, facts: Facts): seq<Task> {
    if groups == [] then [] else Requests(groups[0], facts) + Started(groups[1..], facts)
  }

  /** The calls a drain rejects at once. */
  function Refused(groups: seq<Group>, facts: Facts): seq<Call> {
    if groups == [] then []
    else
      (if !Throws(groups[0], facts) && Route(groups[0], facts) == Refuse then groups[0].calls else []) +
      Refused(groups[1..], facts)
  }

  /** The calls a drain drops, because looking up their group's validators threw. */
  function Lost(groups: seq<Group>, facts: Facts): seq<Call> {
    if groups == [] then []
    else (if Throws(groups[0], facts) then groups[0].calls else []) + Lost(groups[1..], facts)
  }

  predicate AnyThrows(groups: seq<Group>, facts: Facts) {
    exists i :: 0 <= i < |groups| && Throws(groups[i], facts)
  }

  /** How the shared request ends: it throws, or it answers and a projection may throw at one row. */
  datatype Reply = Failed | Answered(world: World, throwsAt: nat)

  function ReadsOf(calls: seq<Call>): seq<Read> {
    seq(|calls|, i requires 0 <= i < |calls| => calls[i].read)
  }

  /** Settle the first `n` callers from the rows at the same positions. */
  function SettleRows(settled: map<nat, Outcome>, calls: seq<Call>, rows: seq<Row>, n: nat): map<nat, Outcome>
    requires n <= |calls| && n <= |rows|
  {
    if n == 0 then settled
    else
      var row := rows[n - 1];
      SettleRows(settled, calls, rows, n - 1)[calls[n - 1].id := if row.value.None? then Rejected else Resolved(row)]
  }

  /** readSingleObjectBatch once its request ends. */
  function BatchSettles(settled: map<nat, Outcome>, calls: seq<Call>, reply: Reply): map<nat, Outcome> {
    var asked := ReadsOf(calls);
    if reply.Failed? || !Askable(asked) then RejectEach(settled, calls)
    else
      var rows := Rows(Aliases(asked), Respond(Aliases(asked), reply.world));
      if reply.throwsAt < |calls|
      then RejectRest(SettleRows(settled, calls, rows, reply.throwsAt), calls)
      else SettleRows(settled, calls, rows, |calls|)
  }

  /** readSingleObjectRest once its request ends; None is a failed request or projection. */
  function RestOutcome(c: Call, answer: Option<World>): Outcome {
    if answer.None? || answer.value(c.read.target).None? then Rejected
    else Resolved(Row(c.read, answer.value(c.read.target)))
  }

  // ---------------------------------------------------------------------------
  // Steps
  // ---------------------------------------------------------------------------

  datatype Action =
    | Ask(call: Call)
    | Fire
    | Drain(facts: Facts)
    | FlushThrows
    | Catch
    | RestEnds(task: nat, answer: Option<World>)
    | BatchEnds(task: nat, reply: Reply)

  predicate Enabled(s: State, a: Action) {
    match a
    case Ask(c) => c.id !in s.issued
    case Fire => s.timers > 0
    case Drain(_) => s.flushes > 0
    case FlushThrows => s.flushes > 0
    case Catch => s.catches > 0
    case RestEnds(i, _) => i < |s.tasks| && s.tasks[i].RestTask?
    case BatchEnds(i, _) => i < |s.tasks| && s.tasks[i].BatchTask?
  }

  /** The server an ending request was answered by. */
  function WorldOf(a: Action): Option<World> {
    match a
    case RestEnds(_, answer) => answer
    case BatchEnds(_, reply) => if reply.Answered? then Some(reply.world) else None
    case _ => None
  }

  function Without(tasks: seq<Task>, i: nat): seq<Task>
    requires i < |tasks|
  {
    tasks[..i] + tasks[i + 1..]
  }

  function Apply(s: State, a: Action): State
    requires Enabled(s, a)
  {
    match a
    case Ask(c) =>
      s.(pending := Enqueued(s.pending, c), issued := s.issued[c.id := c],
         scheduled := true, timers := if s.scheduled then s.timers else s.timers + 1)
    case Fire => s.(timers := s.timers - 1, flushes := s.flushes + 1)
    case Drain(facts) =>
      s.(flushes := s.flushes - 1, scheduled := false, pending := [],
         catches := if AnyThrows(s.pending, facts) then s.catches + 1 else s.catches,
         tasks := s.tasks + Started(s.pending, facts),
         stranded := s.stranded + Lost(s.pending, facts),
         settled := RejectEach(s.settled, Refused(s.pending, facts)))
    case FlushThrows =>
      s.(flushes := s.flushes - 1, scheduled := false, pending := [],
         settled := RejectEach(s.settled, AllCalls(s.pending)))
    case Catch =>
      s.(catches := s.catches - 1, scheduled := false, pending := [],
         settled := RejectEach(s.settled, AllCalls(s.pending)))
    case RestEnds(i, answer) =>
      var c := s.tasks[i].call;
      s.(tasks := Without(s.tasks, i), settled := s.settled[c.id := RestOutcome(c, answer)])
    case BatchEnds(i, reply) =>
      s.(tasks := Without(s.tasks, i), settled := BatchSettles(s.settled, s.tasks[i].calls, reply))
  }

  predicate Possible(s: State, acts: seq<Action>)
    decreases |acts|
  {
    acts == [] || (Enabled(s, acts[0]) && Possible(Apply(s, acts[0]), acts[1..]))
  }

  function Exec(s: State, acts: seq<Action>): State
    requires Possible(s, acts)
    decreases |acts|
  {
    if acts == [] then s else Exec(Apply(s, acts[0]), acts[1..])
  }

  // ---------------------------------------------------------------------------
  // Where the calls are
  // ---------------------------------------------------------------------------

  function TaskCalls(t: Task): seq<Call> {
    match t
    case RestTask(c) => [c]
    case BatchTask(calls) => calls
  }

  function InTasks(tasks: seq<Task>): seq<Call> {
    if tasks == [] then [] else InTasks(tasks[..|tasks| - 1]) + TaskCalls(tasks[|tasks| - 1])
  }

  /** Every place a call can be in: queued, in a request, or dropped. */
  function Outstanding(s: State): seq<Call> {
    AllCalls(s.pending) + InTasks(s.tasks) + s.stranded
  }

  function IdWeight(id: nat): Call -> nat {
    (c: Call) => if c.id == id then 1 else 0
  }

  function StrangerWeight(issued: map<nat, Call>): Call -> nat {
    (c: Call) => if c.id in issued && issued[c.id] == c then 0 else 1
  }

  /** How many places hold the call. */
  function Places(s: State, id: nat): nat {
    Sum(Outstanding(s), IdWeight(id))
  }

  lemma {:induction false} InTasksAppend(a: seq<Task>, b: seq<Task>, w: Call -> nat)
    ensures Sum(InTasks(a + b), w) == Sum(InTasks(a), w) + Sum(InTasks(b), w)
  {
    if b == [] {
      assert a + b == a;
    } else {
      var init, last := b[..|b| - 1], b[|b| - 1];
      assert (a + b)[..|a + b| - 1] == a + init;
      InTasksAppend(a, init, w);
      SumAppend(InTasks(a + init), TaskCalls(last), w);
      SumAppend(InTasks(init), TaskCalls(last), w);
    }
  }

  lemma InTasksOne(t: Task, w: Call -> nat)
    ensures Sum(InTasks([t]), w) == Sum(TaskCalls(t), w)
  {
    assert [t][..0] == [];
    assert InTasks([t]) == [] + TaskCalls(t) == TaskCalls(t);
  }

  lemma InTasksWithout(tasks: seq<Task>, i: nat, w: Call -> nat)
    requires i < |tasks|
    ensures Sum(InTasks(tasks), w) == Sum(InTasks(Without(tasks, i)), w) + Sum(TaskCalls(tasks[i]), w)
  {
    hide InTasks;
    var a, t, b := tasks[..i], tasks[i], tasks[i + 1..];
    assert tasks == a + ([t] + b);
    InTasksAppend(a, [t] + b, w);
    InTasksAppend([t], b, w);
    InTasksAppend(a, b, w);
    InTasksOne(t, w);
  }

  lemma {:induction false} OneByOneSum(calls: seq<Call>, w: Call -> nat)
    ensures Sum(InTasks(OneByOneTasks(calls)), w) == Sum(calls, w)
  {
    if calls != [] {
      var init, last := calls[..|calls| - 1], calls[|calls| - 1];
      var tasks := OneByOneTasks(calls);
      assert tasks[..|tasks| - 1] == OneByOneTasks(init);
      OneByOneSum(init, w);
      SumAppend(InTasks(OneByOneTasks(init)), [last], w);
      assert [last][..0] == [];
    }
  }

  lemma {:induction false} EnqueuedSum(groups: seq<Group>, c: Call, w: Call -> nat)
    ensures Sum(AllCalls(Enqueued(groups, c)), w) == Sum(AllCalls(groups), w) + w(c)
    ensures |AllCalls(Enqueued(groups, c))| == |AllCalls(groups)| + 1
  {
    assert [c][..0] == [];
    if groups == [] {
      assert AllCalls([Group(c.read.target.kind, c.rail, [c])]) == [c];
    } else {
      var after, g, rest := Enqueued(groups, c), groups[0], groups[1..];
      SumAppend(g.calls, AllCalls(rest), w);
      if g.kind == c.read.target.kind && g.rail == c.rail {
        assert after[1..] == rest;
        SumAppend(g.calls, [c], w);
        SumAppend(g.calls + [c], AllCalls(rest), w);
      } else {
        assert after[1..] == Enqueued(rest, c);
        EnqueuedSum(rest, c, w);
        SumAppend(g.calls, AllCalls(Enqueued(rest, c)), w);
      }
    }
  }

  lemma RequestsSum(g: Group, facts: Facts, w: Call -> nat)
    ensures
      Sum(InTasks(Requests(g, facts)), w) ==
      if Throws(g, facts) || Route(g, facts) == Refuse then 0 else Sum(g.calls, w)
  {
    hide Route, Throws;
    if !Throws(g, facts) {
      match Route(g, facts) {
        case Refuse =>
        case Batch => InTasksOne(BatchTask(g.calls), w);
        case OneByOne => OneByOneSum(g.calls, w);
      }
    }
  }

  /**
   A drain conserves calls, however they are weighed: each is handed to one
   request, refused, or dropped.
   */
  lemma {:induction false} DrainConserves(groups: seq<Group>, facts: Facts, w: Call -> nat)
    ensures Sum(AllCalls(groups), w) ==
      Sum(InTasks(Started(groups, facts)), w) + Sum(Refused(groups, facts), w) + Sum(Lost(groups, facts), w)
  {
    hide Route, Throws, Requests;
    if groups != [] {
      var g, rest := groups[0], groups[1..];
      DrainConserves(rest, facts, w);
      RequestsSum(g, facts, w);
      InTasksAppend(Requests(g, facts), Started(rest, facts), w);
      SumAppend(g.calls, AllCalls(rest), w);
      SumAppend(g.calls, Refused(rest, facts), w);
      SumAppend(g.calls, Lost(rest, facts), w);
      assert [] + Refused(rest, facts) == Refused(rest, facts) && [] + Lost(rest, facts) == Lost(rest, facts);
    }
  }

  // ---------------------------------------------------------------------------
  // What settling does
  // ---------------------------------------------------------------------------

  /** A resolved caller has the row of its own read with what the server holds for it. */
  predicate TrueRow(o: Outcome, c: Call, answer: Option<World>) {
    o.Resolved? ==>
      answer.Some? && o.row == Row(c.read, answer.value(c.read.target)) && answer.value(c.read.target).Some?
  }

  predicate HasId(calls: seq<Call>, id: nat) {
    exists i :: 0 <= i < |calls| && calls[i].id == id
  }

  /** `id` was settled by one of the calls, truly. */
  predicate SettledAs(o: Outcome, calls: seq<Call>, id: nat, answer: Option<World>) {
    exists i :: 0 <= i < |calls| && calls[i].id == id && TrueRow(o, calls[i], answer)
  }

  /** `after` settles the calls on top of `before` and leaves every other settlement alone. */
  ghost predicate Settles(
    before: map<nat, Outcome>, after: map<nat, Outcome>, calls: seq<Call>, answer: Option<World>)
  {
    forall id ::
      if HasId(calls, id) then id in after && (id !in before ==> SettledAs(after[id], calls, id, answer))
      else (id in after <==> id in before) && (id in before ==> after[id] == before[id])
  }

  lemma HasIdSnoc(calls: seq<Call>, n: nat, id: nat)
    requires n < |calls|
    ensures HasId(calls[..n + 1], id) <==> HasId(calls[..n], id) || calls[n].id == id
  {
    var init, all := calls[..n], calls[..n + 1];
    assert all[n].id == calls[n].id;
    if HasId(init, id) {
      var i :| 0 <= i < |init| && init[i].id == id;
      assert all[i].id == id;
    }
    if HasId(all, id) && calls[n].id != id {
      var i :| 0 <= i < |all| && all[i].id == id;
      assert init[i].id == id;
    }
  }

  lemma {:induction false} RejectEachAt(m: map<nat, Outcome>, calls: seq<Call>, id: nat)
    ensures id in RejectEach(m, calls) <==> id in m || HasId(calls, id)
    ensures HasId(calls, id) ==> RejectEach(m, calls)[id] == Rejected
    ensures !HasId(calls, id) && id in m ==> RejectEach(m, calls)[id] == m[id]
  {
    hide HasId;
    if calls != [] {
      RejectEachAt(m, calls[..|calls| - 1], id);
      HasIdSnoc(calls, |calls| - 1, id);
      assert calls[..|calls|] == calls;
    } else {
      NobodyHasId(id);
    }
  }

  lemma NobodyHasId(id: nat)
    ensures !HasId([], id)
  {
  }

  lemma {:induction false} RejectRestAt(m: map<nat, Outcome>, calls: seq<Call>, id: nat)
    ensures id in RejectRest(m, calls) <==> id in m || HasId(calls, id)
    ensures id in m ==> RejectRest(m, calls)[id] == m[id]
    ensures id !in m && HasId(calls, id) ==> RejectRest(m, calls)[id] == Rejected
  {
    hide HasId;
    if calls != [] {
      RejectRestAt(m, calls[..|calls| - 1], id);
      HasIdSnoc(calls, |calls| - 1, id);
      assert calls[..|calls|] == calls;
    } else {
      NobodyHasId(id);
    }
  }

  /** What the rows make of a caller among the first n: the last call of that id and the row beside it. */
  lemma {:induction false} SettleRowsAt(m: map<nat, Outcome>, calls: seq<Call>, rows: seq<Row>, n: nat, id: nat)
    requires n <= |calls| && n <= |rows|
    ensures id in SettleRows(m, calls, rows, n) <==> id in m || HasId(calls[..n], id)
    ensures !HasId(calls[..n], id) && id in m ==> SettleRows(m, calls, rows, n)[id] == m[id]
    ensures HasId(calls[..n], id) ==>
      exists i :: 0 <= i < n && calls[i].id == id &&
        SettleRows(m, calls, rows, n)[id] == if rows[i].value.None? then Rejected else Resolved(rows[i])
  {
    hide HasId;
    if n > 0 {
      SettleRowsAt(m, calls, rows, n - 1, id);
      HasIdSnoc(calls, n - 1, id);
    } else {
      NobodyHasId(id);
      assert calls[..0] == [];
    }
  }

  lemma SomeCall(calls: seq<Call>, id: nat, answer: Option<World>)
    requires HasId(calls, id)
    ensures SettledAs(Rejected, calls, id, answer)
  {
    var i :| 0 <= i < |calls| && calls[i].id == id;
    assert TrueRow(Rejected, calls[i], answer);
  }

  lemma RejectEachSettles(m: map<nat, Outcome>, calls: seq<Call>, answer: Option<World>)
    ensures Settles(m, RejectEach(m, calls), calls, answer)
  {
    hide HasId, SettledAs, RejectEach;
    var after := RejectEach(m, calls);
    forall id
      ensures HasId(calls, id) ==> id in after && (id !in m ==> SettledAs(after[id], calls, id, answer))
      ensures !HasId(calls, id) ==> (id in after <==> id in m) && (id in m ==> after[id] == m[id])
    {
      RejectEachAt(m, calls, id);
      if HasId(calls, id) { SomeCall(calls, id, answer); }
    }
  }

  /** Rows aligned with their reads settle each caller truly, whether or not a projection throws on the way. */
  lemma AnsweredSettles(m: map<nat, Outcome>, calls: seq<Call>, world: World, n: nat, id: nat)
    requires n <= |calls|
    ensures
      var asked := ReadsOf(calls);
      var rows := Rows(Aliases(asked), Respond(Aliases(asked), world));
      && |rows| == |calls|
      && var some := SettleRows(m, calls, rows, n);
         && (HasId(calls[..n], id) ==> id in some && SettledAs(some[id], calls, id, Some(world)))
         && (!HasId(calls[..n], id) ==> (id in some <==> id in m) && (id in m ==> some[id] == m[id]))
  {
    hide HasId, Rows, Respond, Aliases;
    var asked := ReadsOf(calls);
    var rows := Rows(Aliases(asked), Respond(Aliases(asked), world));
    if calls == [] { NoRows(asked, world); } else { RowsAlign(asked, world, 0); }
    SettleRowsAt(m, calls, rows, n, id);
    if HasId(calls[..n], id) {
      var some := SettleRows(m, calls, rows, n);
      var i :| 0 <= i < n && calls[i].id == id
        && some[id] == if rows[i].value.None? then Rejected else Resolved(rows[i]);
      RowsAlign(asked, world, i);
      assert TrueRow(some[id], calls[i], Some(world));
    }
  }

  lemma NoRows(asked: seq<Read>, world: World)
    requires asked == []
    ensures Rows(Aliases(asked), Respond(Aliases(asked), world)) == []
  {
  }

  lemma PrefixHasId(calls: seq<Call>, n: nat, id: nat)
    requires n <= |calls|
    ensures HasId(calls[..n], id) ==> HasId(calls, id)
  {
    if HasId(calls[..n], id) {
      var i :| 0 <= i < n && calls[..n][i].id == id;
      assert calls[i].id == id;
    }
  }

  /** Whatever the reply, a batch settles exactly its own callers, each with its own row of that reply. */
  lemma BatchSettlesAll(m: map<nat, Outcome>, calls: seq<Call>, reply: Reply)
    ensures Settles(m, BatchSettles(m, calls, reply), calls, if reply.Answered? then Some(reply.world) else None)
  {
    hide HasId, SettledAs, SettleRows, RejectRest, Rows, Respond, Aliases, ReadsOf, Askable;
    var answer := if reply.Answered? then Some(reply.world) else None;
    var after := BatchSettles(m, calls, reply);
    if reply.Failed? || !Askable(ReadsOf(calls)) {
      RejectEachSettles(m, calls, answer);
    } else {
      var n := if reply.throwsAt < |calls| then reply.throwsAt else |calls|;
      var rows := Rows(Aliases(ReadsOf(calls)), Respond(Aliases(ReadsOf(calls)), reply.world));
      forall id
        ensures HasId(calls, id) ==> id in after && (id !in m ==> SettledAs(after[id], calls, id, answer))
        ensures !HasId(calls, id) ==> (id in after <==> id in m) && (id in m ==> after[id] == m[id])
      {
        AnsweredSettles(m, calls, reply.world, n, id);
        PrefixHasId(calls, n, id);
        if n < |calls| {
          RejectRestAt(SettleRows(m, calls, rows, n), calls, id);
          if HasId(calls, id) { SomeCall(calls, id, answer); }
        } else {
          assert calls[..n] == calls;
        }
      }
    }
  }

  lemma RestSettles(m: map<nat, Outcome>, c: Call, answer: Option<World>)
    ensures Settles(m, m[c.id := RestOutcome(c, answer)], [c], answer)
  {
    var after := m[c.id := RestOutcome(c, answer)];
    assert [c][0].id == c.id && TrueRow(after[c.id], c, answer);
    forall id ensures HasId([c], id) <==> id == c.id {
    }
  }

  // ---------------------------------------------------------------------------
  // The invariant
  // ---------------------------------------------------------------------------

  /** The flag promises a flush, and a non-empty queue has the flag. */
  ghost predicate FlushInv(s: State) {
    (s.scheduled ==> s.timers + s.flushes >= 1) && (s.pending != [] ==> s.scheduled)
  }

  ghost predicate GroupsInv(s: State) {
    forall i :: 0 <= i < |s.pending| ==> s.pending[i].calls != []
  }

  predicate Unsettled(s: State, id: nat) {
    id in s.issued && id !in s.settled
  }

  /** A call sits in exactly one place until it is settled, and in none from then on. */
  ghost predicate PlacesInv(s: State) {
    && (forall id :: Unsettled(s, id) ==> Places(s, id) == 1)
    && (forall id :: !Unsettled(s, id) ==> Places(s, id) == 0)
  }

  ghost predicate CallsInv(s: State) {
    && PlacesInv(s)
    && Sum(Outstanding(s), StrangerWeight(s.issued)) == 0
    && (forall id <- s.issued :: s.issued[id].id == id)
    && (forall id <- s.settled :: id in s.issued)
  }

  ghost predicate Inv(s: State) {
    FlushInv(s) && GroupsInv(s) && CallsInv(s)
  }

  lemma {:induction false} IdSum(calls: seq<Call>, id: nat)
    ensures HasId(calls, id) <==> Sum(calls, IdWeight(id)) > 0
  {
    hide HasId;
    if calls != [] {
      IdSum(calls[..|calls| - 1], id);
      HasIdSnoc(calls, |calls| - 1, id);
      assert calls[..|calls|] == calls;
    } else {
      NobodyHasId(id);
    }
  }

  lemma {:induction false} NoStranger(calls: seq<Call>, issued: map<nat, Call>, i: nat)
    requires Sum(calls, StrangerWeight(issued)) == 0 && i < |calls|
    ensures calls[i].id in issued && issued[calls[i].id] == calls[i]
  {
    if i < |calls| - 1 { NoStranger(calls[..|calls| - 1], issued, i); }
  }

  lemma {:induction false} StrangersStay(calls: seq<Call>, issued: map<nat, Call>, c: Call)
    requires Sum(calls, StrangerWeight(issued)) == 0 && c.id !in issued
    ensures Sum(calls, StrangerWeight(issued[c.id := c])) == 0
  {
    if calls != [] { StrangersStay(calls[..|calls| - 1], issued, c); }
  }

  lemma OutstandingSum(s: State, w: Call -> nat)
    ensures Sum(Outstanding(s), w) == Sum(AllCalls(s.pending), w) + Sum(InTasks(s.tasks), w) + Sum(s.stranded, w)
  {
    hide AllCalls, InTasks;
    SumAppend(AllCalls(s.pending), InTasks(s.tasks), w);
    SumAppend(AllCalls(s.pending) + InTasks(s.tasks), s.stranded, w);
  }

  /** A step that takes some calls out of their places and settles them. */
  ghost predicate TakesOut(s: State, t: State, calls: seq<Call>, answer: Option<World>) {
    && t.issued == s.issued
    && Settles(s.settled, t.settled, calls, answer)
    && (forall id :: Places(s, id) == Places(t, id) + Sum(calls, IdWeight(id)))
    && Sum(Outstanding(s), StrangerWeight(s.issued)) ==
       Sum(Outstanding(t), StrangerWeight(s.issued)) + Sum(calls, StrangerWeight(s.issued))
  }

  /** No settlement is overwritten, and each new one is the caller's own. */
  ghost predicate SettledWell(s: State, t: State, answer: Option<World>) {
    && (forall id <- s.settled :: id in t.settled && t.settled[id] == s.settled[id])
    && (forall id <- t.settled :: id !in s.settled ==> id in s.issued && TrueRow(t.settled[id], s.issued[id], answer))
  }

  lemma TakenWasUnsettled(s: State, t: State, calls: seq<Call>, answer: Option<World>, id: nat)
    requires CallsInv(s) && TakesOut(s, t, calls, answer)
    ensures HasId(calls, id) ==> Unsettled(s, id) && Sum(calls, IdWeight(id)) == 1 && id in t.settled
    ensures HasId(calls, id) && id in t.settled ==> TrueRow(t.settled[id], s.issued[id], answer)
    ensures !HasId(calls, id) ==> Sum(calls, IdWeight(id)) == 0 && (id in t.settled <==> id in s.settled)
    ensures !HasId(calls, id) && id in s.settled ==> t.settled[id] == s.settled[id]
  {
    hide Places, Outstanding, TrueRow;
    IdSum(calls, id);
    assert Places(s, id) == Places(t, id) + Sum(calls, IdWeight(id));
    if HasId(calls, id) {
      assert Unsettled(s, id);
      var i :| 0 <= i < |calls| && calls[i].id == id && TrueRow(t.settled[id], calls[i], answer);
      NoStranger(calls, s.issued, i);
    }
  }

  lemma TakingKeeps(s: State, t: State, calls: seq<Call>, answer: Option<World>)
    requires CallsInv(s) && TakesOut(s, t, calls, answer)
    ensures CallsInv(t) && SettledWell(s, t, answer)
  {
    hide Places, Outstanding, TrueRow, HasId, Settles;
    forall id
      ensures Unsettled(t, id) ==> Places(t, id) == 1
      ensures !Unsettled(t, id) ==> Places(t, id) == 0
      ensures id in s.settled ==> id in t.settled && t.settled[id] == s.settled[id]
      ensures id in t.settled && id !in s.settled ==> id in s.issued && TrueRow(t.settled[id], s.issued[id], answer)
      ensures id in t.settled ==> id in t.issued
    {
      TakenWasUnsettled(s, t, calls, answer, id);
      assert Places(s, id) == Places(t, id) + Sum(calls, IdWeight(id));
    }
  }

  // ---------------------------------------------------------------------------
  // Every step
  // ---------------------------------------------------------------------------

  lemma AskKeepsInv(s: State, c: Call)
    requires Inv(s) && Enabled(s, Ask(c))
    ensures Inv(Apply(s, Ask(c)))
  {
    hide Outstanding, AllCalls, InTasks, Enqueued;
    var t := Apply(s, Ask(c));
    EnqueuedNonEmpty(s.pending, c);
    forall id
      ensures Places(t, id) == Places(s, id) + IdWeight(id)(c)
    {
      EnqueuedSum(s.pending, c, IdWeight(id));
      OutstandingSum(s, IdWeight(id));
      OutstandingSum(t, IdWeight(id));
    }
    var w := StrangerWeight(t.issued);
    StrangersStay(Outstanding(s), s.issued, c);
    EnqueuedSum(s.pending, c, w);
    OutstandingSum(s, w);
    OutstandingSum(t, w);
    AskPlaces(s, t, c);
  }

  lemma AskPlaces(s: State, t: State, c: Call)
    requires PlacesInv(s) && c.id !in s.issued && t.issued == s.issued[c.id := c] && t.settled == s.settled
    requires forall id <- s.settled :: id in s.issued
    requires forall id :: Places(t, id) == Places(s, id) + IdWeight(id)(c)
    ensures PlacesInv(t)
  {
    hide Places;
    forall id
      ensures Unsettled(t, id) ==> Places(t, id) == 1
      ensures !Unsettled(t, id) ==> Places(t, id) == 0
    {
      assert Places(t, id) == Places(s, id) + IdWeight(id)(c);
    }
  }

  lemma {:induction false} EnqueuedNonEmpty(groups: seq<Group>, c: Call)
    requires forall i :: 0 <= i < |groups| ==> groups[i].calls != []
    ensures forall i :: 0 <= i < |Enqueued(groups, c)| ==> Enqueued(groups, c)[i].calls != []
    ensures Enqueued(groups, c) != []
  {
    if groups != [] && !(groups[0].kind == c.read.target.kind && groups[0].rail == c.rail) {
      EnqueuedNonEmpty(groups[1..], c);
    }
  }

  lemma DrainTakesOut(s: State, facts: Facts)
    requires Enabled(s, Drain(facts))
    ensures TakesOut(s, Apply(s, Drain(facts)), Refused(s.pending, facts), None)
  {
    hide Outstanding, AllCalls, InTasks, Started, Refused, Lost, Settles, AnyThrows;
    var t := Apply(s, Drain(facts));
    RejectEachSettles(s.settled, Refused(s.pending, facts), None);
    forall id ensures Places(s, id) == Places(t, id) + Sum(Refused(s.pending, facts), IdWeight(id)) {
      DrainSum(s, facts, IdWeight(id));
    }
    DrainSum(s, facts, StrangerWeight(s.issued));
  }

  lemma DrainSum(s: State, facts: Facts, w: Call -> nat)
    requires Enabled(s, Drain(facts))
    ensures Sum(Outstanding(s), w) == Sum(Outstanding(Apply(s, Drain(facts))), w) + Sum(Refused(s.pending, facts), w)
  {
    hide Outstanding, InTasks, Started, Refused, Lost, AnyThrows;
    var t := Apply(s, Drain(facts));
    OutstandingSum(s, w);
    OutstandingSum(t, w);
    DrainConserves(s.pending, facts, w);
    InTasksAppend(s.tasks, Started(s.pending, facts), w);
    SumAppend(s.stranded, Lost(s.pending, facts), w);
  }

  /** A flush that gives up, before its drain or after one that threw, rejects what is queued. */
  lemma NoCalls()
    ensures AllCalls([]) == [] && forall w: Call -> nat :: Sum([], w) == 0
  {
  }

  lemma GiveUpTakesOut(s: State, a: Action)
    requires Enabled(s, a) && (a.FlushThrows? || a.Catch?)
    ensures TakesOut(s, Apply(s, a), AllCalls(s.pending), None)
  {
    hide Outstanding, InTasks, Settles, AllCalls, RejectEach, Sum, BatchSettles, Started, Refused, Lost;
    var t := Apply(s, a);
    NoCalls();
    RejectEachSettles(s.settled, AllCalls(s.pending), None);
    forall id ensures Places(s, id) == Places(t, id) + Sum(AllCalls(s.pending), IdWeight(id)) {
      OutstandingSum(s, IdWeight(id));
      OutstandingSum(t, IdWeight(id));
    }
    OutstandingSum(s, StrangerWeight(s.issued));
    OutstandingSum(t, StrangerWeight(s.issued));
  }

  lemma TaskSum(s: State, t: State, i: nat, w: Call -> nat)
    requires i < |s.tasks| && t.tasks == Without(s.tasks, i) && t.pending == s.pending && t.stranded == s.stranded
    ensures Sum(Outstanding(s), w) == Sum(Outstanding(t), w) + Sum(TaskCalls(s.tasks[i]), w)
  {
    hide Outstanding, InTasks, AllCalls, Without;
    OutstandingSum(s, w);
    OutstandingSum(t, w);
    InTasksWithout(s.tasks, i, w);
  }

  lemma EndTakesOut(s: State, a: Action)
    requires Enabled(s, a) && (a.RestEnds? || a.BatchEnds?)
    ensures TakesOut(s, Apply(s, a), TaskCalls(s.tasks[a.task]), WorldOf(a))
  {
    hide Outstanding, Settles, BatchSettles, RestOutcome, Without;
    var t := Apply(s, a);
    match a {
      case RestEnds(i, answer) => RestSettles(s.settled, s.tasks[i].call, answer);
      case BatchEnds(i, reply) => BatchSettlesAll(s.settled, s.tasks[i].calls, reply);
    }
    forall id ensures Places(s, id) == Places(t, id) + Sum(TaskCalls(s.tasks[a.task]), IdWeight(id)) {
      TaskSum(s, t, a.task, IdWeight(id));
    }
    TaskSum(s, t, a.task, StrangerWeight(s.issued));
  }

  /** Every step of every interleaving keeps the invariant, overwrites no settlement and answers truly. */
  lemma ApplyKeepsInv(s: State, a: Action)
    requires Inv(s) && Enabled(s, a)
    ensures Inv(Apply(s, a)) && SettledWell(s, Apply(s, a), WorldOf(a))
  {
    hide CallsInv, TakesOut, SettledWell, RejectEach, BatchSettles;
    hide Started, Lost, Refused, AllCalls, Enqueued, AnyThrows;
    var t := Apply(s, a);
    match a {
      case Ask(c) =>
        AskKeepsInv(s, c);
        Untouched(s, t, None);
      case Fire =>
        Moved(s, t);
        Untouched(s, t, None);
      case Drain(facts) =>
        DrainTakesOut(s, facts);
        TakingKeeps(s, t, Refused(s.pending, facts), None);
      case FlushThrows =>
        GiveUpTakesOut(s, a);
        TakingKeeps(s, t, AllCalls(s.pending), None);
      case Catch =>
        GiveUpTakesOut(s, a);
        TakingKeeps(s, t, AllCalls(s.pending), None);
      case RestEnds(i, _) =>
        EndTakesOut(s, a);
        TakingKeeps(s, t, TaskCalls(s.tasks[i]), WorldOf(a));
      case BatchEnds(i, _) =>
        EndTakesOut(s, a);
        TakingKeeps(s, t, TaskCalls(s.tasks[i]), WorldOf(a));
    }
  }

  lemma Untouched(s: State, t: State, answer: Option<World>)
    requires t.settled == s.settled
    ensures SettledWell(s, t, answer)
  {
  }

  lemma Moved(s: State, t: State)
    requires CallsInv(s) && t.pending == s.pending && t.tasks == s.tasks && t.stranded == s.stranded
    requires t.settled == s.settled && t.issued == s.issued
    ensures CallsInv(t)
  {
    assert Outstanding(t) == Outstanding(s);
    forall id ensures Places(t, id) == Places(s, id) && Unsettled(t, id) == Unsettled(s, id) {
    }
  }

  lemma {:induction false} ExecKeepsInv(s: State, acts: seq<Action>)
    requires Inv(s) && Possible(s, acts)
    ensures Inv(Exec(s, acts))
    decreases |acts|
  {
    hide Inv, Apply, Enabled;
    if acts != [] {
      ApplyKeepsInv(s, acts[0]);
      ExecKeepsInv(Apply(s, acts[0]), acts[1..]);
    }
  }

  lemma StartHolds()
    ensures Inv(Start)
  {
    assert Outstanding(Start) == [];
    forall id ensures Places(Start, id) == 0 && !Unsettled(Start, id) {
    }
  }

  // ---------------------------------------------------------------------------
  // Exactly once
  // ---------------------------------------------------------------------------

  /** In every reachable state an unsettled call sits in exactly one place, and a settled one in none. */
  lemma HeldInOnePlace(acts: seq<Action>, id: nat)
    requires Possible(Start, acts)
    ensures
      var s := Exec(Start, acts);
      && (Unsettled(s, id) ==> Places(s, id) == 1)
      && (!Unsettled(s, id) ==> Places(s, id) == 0)
  {
    hide Exec, Places, Unsettled, Possible;
    StartHolds();
    ExecKeepsInv(Start, acts);
  }

  /** The calls a request settles when it ends are unsettled until then, and it holds each once. */
  lemma RequestsSettleTheUnsettled(acts: seq<Action>, a: Action, id: nat)
    requires Possible(Start, acts) && Enabled(Exec(Start, acts), a) && (a.RestEnds? || a.BatchEnds?)
    requires HasId(TaskCalls(Exec(Start, acts).tasks[a.task]), id)
    ensures
      var s := Exec(Start, acts);
      && Unsettled(s, id) && id in Apply(s, a).settled
      && Sum(TaskCalls(s.tasks[a.task]), IdWeight(id)) == 1
  {
    hide Exec, Possible, HasId, Unsettled, TakesOut, CallsInv;
    StartHolds();
    ExecKeepsInv(Start, acts);
    var s := Exec(Start, acts);
    EndTakesOut(s, a);
    TakenWasUnsettled(s, Apply(s, a), TaskCalls(s.tasks[a.task]), WorldOf(a), id);
  }

  /** At most once, although every settlement overwrites: no later step settles a settled call. */
  lemma {:induction false} SettledOnce(s: State, acts: seq<Action>, id: nat)
    requires Inv(s) && Possible(s, acts) && id in s.settled
    ensures id in Exec(s, acts).settled && Exec(s, acts).settled[id] == s.settled[id]
    decreases |acts|
  {
    hide Inv, Apply, Enabled;
    if acts != [] {
      ApplyKeepsInv(s, acts[0]);
      SettledOnce(Apply(s, acts[0]), acts[1..], id);
    }
  }

  /**
   The step of the run that settled the call ended the request that held it, and
   the outcome is the call's own row as the server that answered had it.
   */
  ghost predicate AnsweredTruly(s: State, acts: seq<Action>, id: nat, o: Outcome, c: Call)
    requires Possible(s, acts)
    decreases |acts|
  {
    acts != [] &&
    if id in Apply(s, acts[0]).settled
    then EndsRequestOf(s, acts[0], id) && WorldOf(acts[0]).Some? && TrueRow(o, c, WorldOf(acts[0]))
    else AnsweredTruly(Apply(s, acts[0]), acts[1..], id, o, c)
  }

  predicate EndsRequestOf(s: State, a: Action, id: nat)
    requires Enabled(s, a)
  {
    (a.RestEnds? || a.BatchEnds?) && HasId(TaskCalls(s.tasks[a.task]), id)
  }

  lemma {:induction false} IssuedStays(s: State, acts: seq<Action>, id: nat)
    requires Possible(s, acts) && id in s.issued
    ensures id in Exec(s, acts).issued && Exec(s, acts).issued[id] == s.issued[id]
    decreases |acts|
  {
    if acts != [] { IssuedStays(Apply(s, acts[0]), acts[1..], id); }
  }

  /** Only the end of a call's own request resolves it. */
  lemma ResolvedByItsRequest(s: State, a: Action, id: nat)
    requires Inv(s) && Enabled(s, a) && id !in s.settled
    requires id in Apply(s, a).settled && Apply(s, a).settled[id].Resolved?
    ensures EndsRequestOf(s, a, id) && WorldOf(a).Some? && id in s.issued && id in Apply(s, a).issued
    ensures Apply(s, a).issued[id] == s.issued[id] && TrueRow(Apply(s, a).settled[id], s.issued[id], WorldOf(a))
  {
    hide TakesOut, CallsInv, FlushInv, GroupsInv, HasId, Unsettled;
    var t := Apply(s, a);
    ApplyKeepsInv(s, a);
    EndTakesOut(s, a);
    TakenWasUnsettled(s, t, TaskCalls(s.tasks[a.task]), WorldOf(a), id);
  }

  lemma {:induction false} ResolvedFrom(s: State, acts: seq<Action>, id: nat)
    requires Inv(s) && Possible(s, acts) && id !in s.settled
    requires id in Exec(s, acts).settled && Exec(s, acts).settled[id].Resolved?
    ensures
      var t := Exec(s, acts);
      id in t.issued && AnsweredTruly(s, acts, id, t.settled[id], t.issued[id])
    decreases |acts|
  {
    hide Inv, Apply, Enabled, EndsRequestOf, TrueRow;
    if acts != [] {
      var next, rest := Apply(s, acts[0]), acts[1..];
      ApplyKeepsInv(s, acts[0]);
      if id in next.settled {
        SettledOnce(next, rest, id);
        ResolvedByItsRequest(s, acts[0], id);
        IssuedStays(next, rest, id);
      } else {
        ResolvedFrom(next, rest, id);
      }
    }
  }

  lemma TrueRowIsOwn(s: State, acts: seq<Action>, id: nat, o: Outcome, c: Call)
    requires Possible(s, acts) && AnsweredTruly(s, acts, id, o, c) && o.Resolved?
    ensures o.row.read == c.read && o.row.value.Some?
    decreases |acts|
  {
    hide Apply, Enabled, EndsRequestOf;
    if id !in Apply(s, acts[0]).settled { TrueRowIsOwn(Apply(s, acts[0]), acts[1..], id, o, c); }
  }

  /**
   Every resolved caller holds the row of its own read, with the data that the
   server answering its own request held for its kind, owner, repository and number.
   */
  lemma ResolvedWithOwnRow(acts: seq<Action>, id: nat)
    requires Possible(Start, acts)
    requires var s := Exec(Start, acts); id in s.settled && s.settled[id].Resolved?
    ensures
      var s := Exec(Start, acts);
      && id in s.issued
      && s.settled[id].row.read == s.issued[id].read && s.settled[id].row.value.Some?
      && AnsweredTruly(Start, acts, id, s.settled[id], s.issued[id])
  {
    hide Exec, Possible, AnsweredTruly;
    StartHolds();
    ResolvedFrom(Start, acts, id);
    TrueRowIsOwn(Start, acts, id, Exec(Start, acts).settled[id], Exec(Start, acts).issued[id]);
  }

  /** The reply of an ending batch reaches its caller at position `n`, which has the id. */
  predicate Reaches(calls: seq<Call>, reply: Reply, n: nat, id: nat)
    requires n < |calls|
  {
    && calls[n].id == id
    && reply.Answered? && Askable(ReadsOf(calls)) && n < reply.throwsAt
    && reply.world(calls[n].read.target).Some?
  }

  /** The request that ends holds the call, its reply gets as far as the call, and the server has its object. */
  predicate Answers(s: State, a: Action, id: nat)
    requires Enabled(s, a)
  {
    match a
    case RestEnds(i, answer) =>
      var c := s.tasks[i].call;
      c.id == id && answer.Some? && answer.value(c.read.target).Some?
    case BatchEnds(i, reply) => exists n :: 0 <= n < |s.tasks[i].calls| && Reaches(s.tasks[i].calls, reply, n, id)
    case _ => false
  }

  /** Two positions of one call would count it twice. */
  lemma {:induction false} OnePosition(calls: seq<Call>, id: nat, m: nat, n: nat)
    requires m <= n < |calls| && calls[m].id == id == calls[n].id && Sum(calls, IdWeight(id)) == 1
    ensures m == n
  {
    var last := |calls| - 1;
    IdSum(calls[..last], id);
    if n < last {
      if calls[last].id == id {
        PositionHasId(calls, last, n, id);
      } else {
        OnePosition(calls[..last], id, m, n);
      }
    } else if m < n {
      PositionHasId(calls, last, m, id);
    }
  }

  lemma RejectedSettles(m: map<nat, Outcome>, calls: seq<Call>, id: nat)
    requires id !in m && id in RejectEach(m, calls)
    ensures RejectEach(m, calls)[id] == Rejected
  {
    RejectEachAt(m, calls, id);
  }

  /** One settlement of a batch: the call at its one position is resolved exactly when the reply reaches it. */
  lemma BatchResolvesIff(m: map<nat, Outcome>, calls: seq<Call>, reply: Reply, id: nat)
    requires id !in m && HasId(calls, id) && Sum(calls, IdWeight(id)) == 1
    ensures
      var after := BatchSettles(m, calls, reply);
      id in after && (after[id].Resolved? <==> exists n :: 0 <= n < |calls| && Reaches(calls, reply, n, id))
  {
    hide HasId, Rows, Respond, Aliases, ReadsOf, Askable, Sum;
    BatchSettlesAll(m, calls, reply);
    if reply.Failed? || !Askable(ReadsOf(calls)) {
      RejectEachAt(m, calls, id);
    } else {
      var n := if reply.throwsAt < |calls| then reply.throwsAt else |calls|;
      var asked := ReadsOf(calls);
      var rows := Rows(Aliases(asked), Respond(Aliases(asked), reply.world));
      AnsweredSettles(m, calls, reply.world, n, id);
      SettleRowsAt(m, calls, rows, n, id);
      RejectRestAt(SettleRows(m, calls, rows, n), calls, id);
      if HasId(calls[..n], id) {
        var i :| 0 <= i < n && calls[i].id == id && SettleRows(m, calls, rows, n)[id]
          == if rows[i].value.None? then Rejected else Resolved(rows[i]);
        ReadAt(calls, i);
        RowsAlign(asked, reply.world, i);
        assert rows[i].value.Some? ==> Reaches(calls, reply, i, id);
        forall k | 0 <= k < |calls| && Reaches(calls, reply, k, id) ensures rows[i].value.Some? {
          if i <= k { OnePosition(calls, id, i, k); } else { OnePosition(calls, id, k, i); }
        }
      } else {
        forall k | 0 <= k < |calls| && Reaches(calls, reply, k, id) ensures false {
          PositionHasId(calls, n, k, id);
        }
        assert calls[..|calls|] == calls;
      }
    }
  }

  lemma ReadAt(calls: seq<Call>, i: nat)
    requires i < |calls|
    ensures |ReadsOf(calls)| == |calls| && ReadsOf(calls)[i] == calls[i].read
  {
  }

  lemma PositionHasId(calls: seq<Call>, n: nat, k: nat, id: nat)
    requires k < n <= |calls| && calls[k].id == id
    ensures HasId(calls[..n], id)
  {
    assert calls[..n][k].id == id;
  }

  /**
   A call is resolved by the step that settles it exactly when that step ends the
   call's request with a reply that gets as far as the call and a server that has its
   object: not by a drain, a flush that throws, or a catch.
   */
  lemma ResolvedByStepIff(s: State, a: Action, id: nat)
    requires Inv(s) && Enabled(s, a) && id !in s.settled && id in Apply(s, a).settled
    ensures Apply(s, a).settled[id].Resolved? <==> Answers(s, a, id)
  {
    hide BatchSettles, RejectEach, AllCalls, InTasks, Refused, Started, Lost, AnyThrows, HasId, Reaches;
    hide TakesOut, CallsInv, Enqueued;
    match a {
      case Ask(_) =>
      case Fire =>
      case Drain(facts) => RejectedSettles(s.settled, Refused(s.pending, facts), id);
      case FlushThrows => RejectedSettles(s.settled, AllCalls(s.pending), id);
      case Catch => RejectedSettles(s.settled, AllCalls(s.pending), id);
      case RestEnds(_, _) =>
      case BatchEnds(i, reply) =>
        EndTakesOut(s, a);
        TakenWasUnsettled(s, Apply(s, a), TaskCalls(s.tasks[i]), WorldOf(a), id);
        BatchResolvesIff(s.settled, s.tasks[i].calls, reply, id);
    }
  }

  /** The first step of the run that settles the call answers it. */
  ghost predicate AnsweredInRun(s: State, acts: seq<Action>, id: nat)
    requires Possible(s, acts)
    decreases |acts|
  {
    acts != [] &&
    if id in Apply(s, acts[0]).settled then Answers(s, acts[0], id) else AnsweredInRun(Apply(s, acts[0]), acts[1..], id)
  }

  lemma {:induction false} ResolvedFromIff(s: State, acts: seq<Action>, id: nat)
    requires Inv(s) && Possible(s, acts) && id !in s.settled && id in Exec(s, acts).settled
    ensures Exec(s, acts).settled[id].Resolved? <==> AnsweredInRun(s, acts, id)
    decreases |acts|
  {
    hide Inv, Apply, Enabled, Answers;
    if acts != [] {
      ApplyKeepsInv(s, acts[0]);
      var t := Apply(s, acts[0]);
      if id in t.settled {
        ResolvedByStepIff(s, acts[0], id);
        SettledOnce(t, acts[1..], id);
      } else {
        ResolvedFromIff(t, acts[1..], id);
      }
    }
  }

  /** Over every run: a settled caller has its row if and only if the step that settled it answered it. */
  lemma ResolvedIff(acts: seq<Action>, id: nat)
    requires Possible(Start, acts) && id in Exec(Start, acts).settled
    ensures Exec(Start, acts).settled[id].Resolved? <==> AnsweredInRun(Start, acts, id)
  {
    hide Exec, Possible, AnsweredInRun;
    StartHolds();
    ResolvedFromIff(Start, acts, id);
  }

  // ---------------------------------------------------------------------------
  // Flushes, and lookups that throw
  // ---------------------------------------------------------------------------

  /** No drain of the run met a lookup that throws. */
  predicate Unbroken(s: State, acts: seq<Action>)
    requires Possible(s, acts)
    decreases |acts|
  {
    acts == [] ||
    (!(acts[0].Drain? && AnyThrows(s.pending, acts[0].facts)) && Unbroken(Apply(s, acts[0]), acts[1..]))
  }

  /** Without throwing lookups, one flush is outstanding at most, and the flag says whether. */
  ghost predicate SingleFlush(s: State) {
    && (s.scheduled <==> s.timers + s.flushes == 1) && s.timers + s.flushes <= 1
    && s.catches == 0 && s.stranded == []
  }

  lemma {:induction false} LostIff(groups: seq<Group>, facts: Facts)
    requires forall i :: 0 <= i < |groups| ==> groups[i].calls != []
    ensures Lost(groups, facts) == [] <==> !AnyThrows(groups, facts)
  {
    hide Throws;
    if groups != [] {
      LostIff(groups[1..], facts);
      assert Throws(groups[0], facts) ==> AnyThrows(groups, facts);
      if AnyThrows(groups[1..], facts) {
        var i :| 0 <= i < |groups[1..]| && Throws(groups[1..][i], facts);
        assert Throws(groups[i + 1], facts);
      }
      if AnyThrows(groups, facts) && !Throws(groups[0], facts) {
        var i :| 0 <= i < |groups| && Throws(groups[i], facts);
        assert Throws(groups[1..][i - 1], facts);
      }
    }
  }

  lemma SingleFlushStep(s: State, a: Action)
    requires SingleFlush(s) && GroupsInv(s) && Enabled(s, a)
    requires !(a.Drain? && AnyThrows(s.pending, a.facts))
    ensures SingleFlush(Apply(s, a))
  {
    hide AnyThrows, GroupsInv, Started, Refused, RejectEach, BatchSettles;
    if a.Drain? {
      UnfoldGroups(s);
      LostIff(s.pending, a.facts);
    }
  }

  lemma UnfoldGroups(s: State)
    requires GroupsInv(s)
    ensures forall i :: 0 <= i < |s.pending| ==> s.pending[i].calls != []
  {
  }

  lemma {:induction false} SingleFlushRun(s: State, acts: seq<Action>)
    requires Inv(s) && SingleFlush(s) && Possible(s, acts) && Unbroken(s, acts)
    ensures SingleFlush(Exec(s, acts))
    decreases |acts|
  {
    hide Apply, Enabled, CallsInv, FlushInv, SingleFlush, GroupsInv;
    if acts != [] {
      ApplyKeepsInv(s, acts[0]);
      SingleFlushStep(s, acts[0]);
      SingleFlushRun(Apply(s, acts[0]), acts[1..]);
    }
  }

  /** A non-empty queue always has an outstanding flush, and exactly one as long as no lookup throws. */
  lemma QueueAlwaysHasAFlush(acts: seq<Action>)
    requires Possible(Start, acts)
    ensures
      var s := Exec(Start, acts);
      && (s.pending != [] ==> s.timers + s.flushes >= 1)
      && (Unbroken(Start, acts) ==>
            s.timers + s.flushes <= 1 && s.catches == 0 && (s.pending != [] ==> s.timers + s.flushes == 1))
  {
    hide Exec, Possible, Unbroken;
    StartHolds();
    ExecKeepsInv(Start, acts);
    if Unbroken(Start, acts) { SingleFlushRun(Start, acts); }
  }

  /** Whether a run's last step on the flag was to raise it: asking does, every end of a flush lowers it. */
  function Raised(acts: seq<Action>): bool {
    if acts == [] then false
    else
      match acts[|acts| - 1]
      case Ask(_) => true
      case Drain(_) => false
      case FlushThrows => false
      case Catch => false
      case _ => Raised(acts[..|acts| - 1])
  }

  lemma {:induction false} FlagFrom(s: State, before: seq<Action>, acts: seq<Action>)
    requires Possible(s, acts) && s.scheduled == Raised(before)
    ensures Exec(s, acts).scheduled == Raised(before + acts)
    decreases |acts|
  {
    hide Enqueued, Started, Lost, Refused, RejectEach, BatchSettles, AllCalls, AnyThrows;
    if acts == [] {
      assert before + [] == before;
    } else {
      assert (before + [acts[0]])[..|before|] == before;
      FlagFrom(Apply(s, acts[0]), before + [acts[0]], acts[1..]);
      assert before + [acts[0]] + acts[1..] == before + acts;
    }
  }

  /** The flag says just that, and a caller arms a timer exactly when it is down. */
  lemma FlagIs(acts: seq<Action>, c: Call)
    requires Possible(Start, acts) && Enabled(Exec(Start, acts), Ask(c))
    ensures
      var s := Exec(Start, acts);
      s.scheduled == Raised(acts) && Apply(s, Ask(c)).timers == s.timers + if Raised(acts) then 0 else 1
  {
    hide Exec, Possible, Raised, Enqueued;
    NothingRaised();
    FlagFrom(Start, [], acts);
    assert [] + acts == acts;
  }

  lemma NothingRaised()
    ensures !Raised([])
  {
  }

  // ---------------------------------------------------------------------------
  // At least once
  // ---------------------------------------------------------------------------

  /** The work left: every step but a new call takes some of it. */
  function Work(s: State): nat {
    2 * |AllCalls(s.pending)| + |s.tasks| + 3 * s.timers + 2 * s.flushes + s.catches
  }

  lemma {:induction false} StartedBound(groups: seq<Group>, facts: Facts)
    requires forall i :: 0 <= i < |groups| ==> groups[i].calls != []
    ensures |Started(groups, facts)| <= |AllCalls(groups)|
  {
    hide Throws, Route;
    if groups != [] { StartedBound(groups[1..], facts); }
  }

  lemma StepTakesWork(s: State, a: Action)
    requires GroupsInv(s) && Enabled(s, a)
    ensures GroupsInv(Apply(s, a))
    ensures !a.Ask? ==> Work(Apply(s, a)) < Work(s)
  {
    hide AnyThrows, Refused, Lost, RejectEach, BatchSettles, Started;
    match a {
      case Ask(c) => EnqueuedNonEmpty(s.pending, c);
      case Drain(facts) => StartedBound(s.pending, facts);
      case _ =>
    }
  }

  lemma HasIdAppend(a: seq<Call>, b: seq<Call>, id: nat)
    ensures HasId(a + b, id) <==> HasId(a, id) || HasId(b, id)
  {
    hide HasId;
    SumAppend(a, b, IdWeight(id));
    IdSum(a, id);
    IdSum(b, id);
    IdSum(a + b, id);
  }

  /** While a call is neither settled nor stranded, some step other than a new call is possible. */
  lemma UnsettledCanProceed(acts: seq<Action>, id: nat)
    requires Possible(Start, acts)
    requires var s := Exec(Start, acts); Unsettled(s, id) && !HasId(s.stranded, id)
    ensures exists a :: Enabled(Exec(Start, acts), a) && !a.Ask?
  {
    hide Exec, Possible, HasId, AllCalls, InTasks, CallsInv, GroupsInv, Unsettled;
    var s := Exec(Start, acts);
    StartHolds();
    ExecKeepsInv(Start, acts);
    HeldInOnePlace(acts, id);
    IdSum(Outstanding(s), id);
    HasIdAppend(AllCalls(s.pending), InTasks(s.tasks), id);
    HasIdAppend(AllCalls(s.pending) + InTasks(s.tasks), s.stranded, id);
    if HasId(InTasks(s.tasks), id) {
      SomeTask(s.tasks, id);
      assert Enabled(s, if s.tasks[0].RestTask? then RestEnds(0, None) else BatchEnds(0, Failed));
    } else {
      SomeGroup(s.pending, id);
      assert Enabled(s, if s.timers > 0 then Fire else FlushThrows);
    }
  }

  lemma SomeTask(tasks: seq<Task>, id: nat)
    requires HasId(InTasks(tasks), id)
    ensures tasks != []
  {
  }

  lemma SomeGroup(groups: seq<Group>, id: nat)
    requires HasId(AllCalls(groups), id)
    ensures groups != []
  {
  }

  /** Without new calls a run is no longer than the work it starts with. */
  lemma {:induction false} RunsEnd(s: State, acts: seq<Action>)
    requires GroupsInv(s) && Possible(s, acts)
    requires forall i :: 0 <= i < |acts| ==> !acts[i].Ask?
    ensures |acts| + Work(Exec(s, acts)) <= Work(s)
    decreases |acts|
  {
    hide Apply, Enabled, GroupsInv, Work;
    if acts != [] {
      StepTakesWork(s, acts[0]);
      RunsEnd(Apply(s, acts[0]), acts[1..]);
    }
  }

  predicate Quiescent(s: State) {
    s.timers == 0 && s.flushes == 0 && s.catches == 0 && s.tasks == []
  }

  /** When nothing is outstanding, every caller has its answer except those a throwing drain dropped. */
  lemma QuiescentMeansSettled(acts: seq<Action>, id: nat)
    requires Possible(Start, acts) && Quiescent(Exec(Start, acts))
    requires id in Exec(Start, acts).issued
    ensures id in Exec(Start, acts).settled <==> !HasId(Exec(Start, acts).stranded, id)
  {
    hide Exec, Possible, HasId, CallsInv, GroupsInv, Places;
    var s := Exec(Start, acts);
    StartHolds();
    ExecKeepsInv(Start, acts);
    HeldInOnePlace(acts, id);
    assert Outstanding(s) == s.stranded by { QuiescentPlaces(s); }
    IdSum(s.stranded, id);
    assert Places(s, id) == Sum(s.stranded, IdWeight(id)) by { PlacesAre(s, id); }
  }

  lemma QuiescentPlaces(s: State)
    requires Quiescent(s) && FlushInv(s)
    ensures Outstanding(s) == s.stranded
  {
  }

  lemma PlacesAre(s: State, id: nat)
    requires Outstanding(s) == s.stranded
    ensures Places(s, id) == Sum(s.stranded, IdWeight(id))
  {
  }

  lemma {:induction false} StrandedStays(s: State, acts: seq<Action>)
    requires Possible(s, acts)
    ensures |s.stranded| <= |Exec(s, acts).stranded|
    decreases |acts|
  {
    if acts != [] { StrandedStays(Apply(s, acts[0]), acts[1..]); }
  }

  /** Calls are dropped exactly when some drain of the run met a lookup that throws. */
  lemma {:induction false} StrandedIff(s: State, acts: seq<Action>)
    requires Inv(s) && Possible(s, acts) && s.stranded == []
    ensures Exec(s, acts).stranded == [] <==> Unbroken(s, acts)
    decreases |acts|
  {
    hide CallsInv, FlushInv, AnyThrows, Started, Refused, RejectEach, BatchSettles, Lost, Enabled;
    if acts != [] {
      var a, next := acts[0], Apply(s, acts[0]);
      ApplyKeepsInv(s, a);
      if a.Drain? { LostIff(s.pending, a.facts); }
      if next.stranded == [] {
        StrandedIff(next, acts[1..]);
      } else {
        StrandedStays(next, acts[1..]);
      }
    }
  }

  lemma SomebodyHasId(calls: seq<Call>) returns (id: nat)
    requires calls != []
    ensures HasId(calls, id)
  {
    id := calls[0].id;
    assert calls[0].id == id;
  }

  /** Once nothing is outstanding, all callers are settled if and only if no lookup of the run threw. */
  lemma AllSettledIff(acts: seq<Action>)
    requires Possible(Start, acts) && Quiescent(Exec(Start, acts))
    ensures
      var s := Exec(Start, acts);
      (forall id <- s.issued :: id in s.settled) <==> Unbroken(Start, acts)
  {
    hide Exec, Possible, HasId, Unbroken, Quiescent, FlushInv, GroupsInv;
    var s := Exec(Start, acts);
    StartHolds();
    ExecKeepsInv(Start, acts);
    StrandedIff(Start, acts);
    forall id <- s.issued ensures id in s.settled <==> !HasId(s.stranded, id) {
      QuiescentMeansSettled(acts, id);
    }
    if s.stranded != [] {
      var id := SomebodyHasId(s.stranded);
      StrandedIsIssued(s, id);
    } else {
      forall id ensures !HasId([], id) { NobodyHasId(id); }
    }
  }

  lemma StrandedIsIssued(s: State, id: nat)
    requires CallsInv(s) && HasId(s.stranded, id)
    ensures id in s.issued
  {
    hide HasId;
    HasIdAppend(AllCalls(s.pending) + InTasks(s.tasks), s.stranded, id);
    IdSum(Outstanding(s), id);
    assert Places(s, id) > 0;
    assert Unsettled(s, id);
  }

  /** One call whose validator lookup throws is never settled, although the flush has run its catch. */
  lemma ThrowingLookupStrands()
    ensures
      var c := Call(0, Read(Object(Issue, "o", "r", 1), "id"), "key", None);
      var acts := [Ask(c), Fire, Drain(Facts(None, false, {}, {"key"})), Catch];
      Possible(Start, acts) && Quiescent(Exec(Start, acts)) && 0 !in Exec(Start, acts).settled
  {
    var c := Call(0, Read(Object(Issue, "o", "r", 1), "id"), "key", None);
    var facts := Facts(None, false, {}, {"key"});
    var g := Group(Issue, None, [c]);
    assert KeyAt(g, 0) in facts.broken;
    assert Throws(g, facts);
    assert Throws([g][0], facts);
    var s1 := Apply(Start, Ask(c));
    assert s1.pending == [g];
    var s2 := Apply(s1, Fire);
    var s3 := Apply(s2, Drain(facts));
    DropsAll(g, facts);
    assert s3 == State([], false, 0, 0, 1, [], [c], map[], map[0 := c]);
    var s4 := Apply(s3, Catch);
    assert s4 == State([], false, 0, 0, 0, [], [c], map[], map[0 := c]);
    FourSteps(Start, Ask(c), Fire, Drain(facts), Catch);
  }

  lemma DropsAll(g: Group, facts: Facts)
    requires Throws(g, facts)
    ensures Started([g], facts) == [] && Refused([g], facts) == [] && Lost([g], facts) == g.calls
  {
    hide Throws, Route;
    assert [g][1..] == [];
    assert Lost([g], facts) == g.calls + [];
  }

  lemma FourSteps(s: State, a: Action, b: Action, c: Action, d: Action)
    requires Enabled(s, a) && Enabled(Apply(s, a), b) && Enabled(Apply(Apply(s, a), b), c)
    requires Enabled(Apply(Apply(Apply(s, a), b), c), d)
    ensures Possible(s, [a, b, c, d]) && Exec(s, [a, b, c, d]) == Apply(Apply(Apply(Apply(s, a), b), c), d)
  {
    hide Apply, Enabled;
    var s1 := Apply(s, a);
    var s2 := Apply(s1, b);
    var s3 := Apply(s2, c);
    OneStep(s3, d, []);
    OneStep(s2, c, [d]);
    OneStep(s1, b, [c, d]);
    OneStep(s, a, [b, c, d]);
    assert [d] + [] == [d] && [c] + [d] == [c, d] && [b] + [c, d] == [b, c, d] && [a] + [b, c, d] == [a, b, c, d];
  }

  lemma OneStep(s: State, a: Action, rest: seq<Action>)
    requires Enabled(s, a) && Possible(Apply(s, a), rest)
    ensures Possible(s, [a] + rest) && Exec(s, [a] + rest) == Exec(Apply(s, a), rest)
  {
    hide Apply, Enabled;
    assert ([a] + rest)[1..] == rest;
  }
}
