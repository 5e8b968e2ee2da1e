/** Budget control over the token's three pools. Fractions and pressures are exact reals. */
module RateBalance {
  import opened Wrappers

  datatype Budget = Rest | Graphql | Search

  const POOLS: seq<Budget> := [Rest, Graphql, Search]

  /** `resetAt` is in milliseconds; None stands for an unreadable instant. */
  datatype Pool = Pool(name: Budget, limit: int, remaining: int, used: int, resetAt: Option<int>, fraction: real)

  datatype Balance = Balance(rest: Option<Pool>, graphql: Option<Pool>, search: Option<Pool>) {
    function At(b: Budget): Option<Pool> {
      match b
      case Rest => rest
      case Graphql => graphql
      case Search => search
    }
  }

  /** What reading one pool of the answer guarantees. */
  predicate ReadFrom(pool: Pool, b: Budget) {
    pool.name == b && pool.limit > 0 && pool.fraction == pool.remaining as real / pool.limit as real
  }

  predicate WellRead(balance: Balance) {
    forall b :: balance.At(b).Some? ==> ReadFrom(balance.At(b).value, b)
  }

  predicate Reported(balance: Balance, b: Budget) {
    balance.At(b).Some?
  }

  // ---------------------------------------------------------------------------
  // The cadence ladder
  // ---------------------------------------------------------------------------

  const RESERVED_FRACTION: real := 0.15
  const MIN_CADENCE_MS: int := 15_000

  datatype Step = Step(atOrBelow: real, everyMs: int)

  const CADENCE: seq<Step> := [
    Step(0.0, MIN_CADENCE_MS), Step(RESERVED_FRACTION, 30_000), Step(0.5, 120_000), Step(1.0, 600_000)
  ]

  function StepMs(fraction: real): int {
    if fraction <= 0.0 then MIN_CADENCE_MS
    else if fraction <= RESERVED_FRACTION then 30_000
    else if fraction <= 0.5 then 120_000
    else 600_000
  }

  /** The first step of the ladder at or above the fraction, or the last one. */
  method StepFor(fraction: real) returns (step: Step)
    ensures step in CADENCE && step.everyMs == StepMs(fraction)
  {
    var i := 0;
    while i < |CADENCE|
      invariant 0 <= i <= |CADENCE|
      invariant forall j :: 0 <= j < i ==> CADENCE[j].atOrBelow < fraction
    {
      if fraction <= CADENCE[i].atOrBelow {
        assert i > 0 ==> CADENCE[i - 1].atOrBelow < fraction;
        assert i == 0 || i == 1 || i == 2 || i == 3;
        return CADENCE[i];
      }
      i := i + 1;
    }
    step := CADENCE[|CADENCE| - 1];
  }

  predicate IsTightest(balance: Balance, pool: Pool) {
    && (exists b :: balance.At(b) == Some(pool))
    && (forall b :: Reported(balance, b) ==> pool.fraction <= balance.At(b).value.fraction)
  }

  /** The reported pool with the smallest fraction, the first one among equals. */
  method TightestPool(balance: Balance) returns (tightest: Option<Pool>)
    ensures tightest.None? <==> forall b :: !Reported(balance, b)
    ensures tightest.Some? ==> IsTightest(balance, tightest.value)
  {
    tightest := None;
    var i := 0;
    while i < |POOLS|
      invariant 0 <= i <= |POOLS|
      invariant tightest.None? <==> forall j :: 0 <= j < i ==> !Reported(balance, POOLS[j])
      invariant tightest.Some? ==> exists b :: balance.At(b) == tightest
      invariant tightest.Some? ==> forall j :: 0 <= j < i && Reported(balance, POOLS[j]) ==>
        tightest.value.fraction <= balance.At(POOLS[j]).value.fraction
    {
      var candidate := balance.At(POOLS[i]);
      if candidate.Some? && (tightest.None? || candidate.value.fraction < tightest.value.fraction) {
        tightest := candidate;
      }
      i := i + 1;
    }
    forall b
      ensures Reported(balance, b) ==> tightest.Some? && tightest.value.fraction <= balance.At(b).value.fraction
    {
      assert POOLS[Place(b)] == b;
    }
  }

  function Place(b: Budget): (i: nat)
    ensures i < |POOLS| && POOLS[i] == b
  {
    match b
    case Rest => 0
    case Graphql => 1
    case Search => 2
  }

  function Min(a: int, b: int): int {
    if a < b then a else b
  }

  function Max(a: int, b: int): int {
    if a < b then b else a
  }

  function UntilReset(now: Option<int>, pool: Pool): Option<int> {
    if now.None? || pool.resetAt.None? then None else Some(Max(0, pool.resetAt.value - now.value))
  }

  /** The smallest ladder step over the reported pools. */
  predicate IsLeastStep(balance: Balance, ms: int) {
    && (exists b :: Reported(balance, b) && ms == StepMs(balance.At(b).value.fraction))
    && (forall b :: Reported(balance, b) ==> ms <= StepMs(balance.At(b).value.fraction))
  }

  /** The next ask: the least ladder step over reported pools, within the ladder's ends. */
  method CadenceMs(balance: Balance, now: Option<int>) returns (ms: int)
    requires WellRead(balance)
    ensures (exists b :: Reported(balance, b)) ==> IsLeastStep(balance, ms) && MIN_CADENCE_MS <= ms <= 600_000
    ensures (forall b :: !Reported(balance, b)) ==> ms == 30_000
  {
    var tightest := TightestPool(balance);
    if tightest.None? {
      var blind := StepFor(RESERVED_FRACTION);
      return blind.everyMs;
    }
    var step := StepFor(tightest.value.fraction);
    if tightest.value.remaining > 0 { return step.everyMs; }
    var untilReset := UntilReset(now, tightest.value);
    if untilReset.None? { return step.everyMs; }
    ms := Max(MIN_CADENCE_MS, Min(step.everyMs, untilReset.value));
  }

  // ---------------------------------------------------------------------------
  // Postures and admission
  // ---------------------------------------------------------------------------

  datatype Posture = Open | Reserved | Spent | Unknown

  datatype Criticality = Essential | Convenience

  datatype Admission = Admission(
    admitted: bool, posture: Posture, pool: Budget, criticality: Criticality,
    remaining: Option<int>, reservedFloor: Option<int>, resetAt: Option<int>)

  function Ceil(x: real): int {
    -(-x).Floor
  }

  function ReservedFloor(pool: Pool, reserved: real): int {
    Ceil(pool.limit as real * reserved)
  }

  function PoolPosture(pool: Pool, reserved: real): Posture {
    if pool.remaining <= 0 then Spent
    else if pool.remaining < ReservedFloor(pool, reserved) then Reserved
    else Open
  }

  function PostureOf(balance: Balance, b: Budget, reserved: real): Posture {
    if balance.At(b).None? then Unknown else PoolPosture(balance.At(b).value, reserved)
  }

  function Admit(balance: Option<Balance>, b: Budget, criticality: Criticality, reserved: real): Admission {
    if balance.None? || balance.value.At(b).None?
    then Admission(true, Unknown, b, criticality, None, None, None)
    else
      var pool := balance.value.At(b).value;
      var posture := PostureOf(balance.value, b, reserved);
      var admitted := !posture.Spent? && !(posture.Reserved? && criticality.Convenience?);
      Admission(admitted, posture, b, criticality, Some(pool.remaining), Some(ReservedFloor(pool, reserved)),
                pool.resetAt)
  }

  lemma CeilIs(x: real, n: int)
    ensures n < Ceil(x) <==> n as real < x
  {
  }

  /** What the verdict on a call turns on: the count that is left, and the reserved fraction of the limit. */
  lemma RefusedIff(balance: Balance, b: Budget, criticality: Criticality, reserved: real)
    ensures
      var left := balance.At(b);
      !Admit(Some(balance), b, criticality, reserved).admitted <==>
      left.Some? &&
      (left.value.remaining <= 0 ||
       (criticality.Convenience? && left.value.remaining as real < left.value.limit as real * reserved))
    ensures Admit(None, b, criticality, reserved).admitted
  {
    if balance.At(b).Some? {
      var pool := balance.At(b).value;
      var x := pool.limit as real * reserved;
      CeilIs(x, pool.remaining);
      assert ReservedFloor(pool, reserved) == Ceil(x);
    }
  }

  /** What a verdict shows: the posture of the pool, and the numbers that it turned on. */
  lemma VerdictShows(balance: Option<Balance>, b: Budget, criticality: Criticality, reserved: real)
    ensures
      var v := Admit(balance, b, criticality, reserved);
      var left := if balance.None? then None else balance.value.At(b);
      && v.pool == b && v.criticality == criticality
      && (left.None? <==> v.posture.Unknown?)
      && (left.None? ==> v.remaining.None? && v.reservedFloor.None? && v.resetAt.None?)
      && (left.Some? ==>
            && v.remaining == Some(left.value.remaining) && v.resetAt == left.value.resetAt
            && v.reservedFloor.Some?
            && v.reservedFloor.value as real >= left.value.limit as real * reserved
            && v.reservedFloor.value as real < left.value.limit as real * reserved + 1.0
            && (v.posture.Spent? <==> left.value.remaining < 1)
            && (v.posture.Reserved? <==> 1 <= left.value.remaining < v.reservedFloor.value))
  {
  }

  /** The worst of the reported pools: spent before reserved before open. */
  function Worst(balance: Balance, reserved: real): Posture {
    if exists b :: PostureOf(balance, b, reserved) == Spent then Spent
    else if exists b :: PostureOf(balance, b, reserved) == Reserved then Reserved
    else if exists b :: PostureOf(balance, b, reserved) == Open then Open
    else Unknown
  }

  method WorstPosture(balance: Balance, reserved: real) returns (worst: Posture)
    ensures worst == Worst(balance, reserved)
  {
    hide PoolPosture;
    worst := Unknown;
    var i := 0;
    while i < |POOLS|
      invariant 0 <= i <= |POOLS|
      invariant forall j :: 0 <= j < i ==> PostureOf(balance, POOLS[j], reserved) != Spent
      invariant worst == Reserved <==> exists j :: 0 <= j < i && PostureOf(balance, POOLS[j], reserved) == Reserved
      invariant worst == Unknown <==> forall j :: 0 <= j < i ==> PostureOf(balance, POOLS[j], reserved) == Unknown
      invariant worst != Spent
    {
      if balance.At(POOLS[i]).Some? {
        var posture := PostureOf(balance, POOLS[i], reserved);
        if posture == Spent { return Spent; }
        if posture == Reserved || worst == Unknown { worst := posture; }
      }
      i := i + 1;
    }
    forall b
      ensures PostureOf(balance, b, reserved) != Spent
      ensures PostureOf(balance, b, reserved) == Reserved ==> worst == Reserved
      ensures PostureOf(balance, b, reserved) != Unknown ==> worst != Unknown
    {
      assert POOLS[Place(b)] == b;
    }
  }

  /** A worst posture of open admits every call; of reserved, every essential one. */
  lemma WorstGoverns(balance: Balance, reserved: real, b: Budget, criticality: Criticality)
    ensures Worst(balance, reserved).Open? ==> Admit(Some(balance), b, criticality, reserved).admitted
    ensures Worst(balance, reserved).Unknown? ==> Admit(Some(balance), b, criticality, reserved).admitted
    ensures Worst(balance, reserved).Reserved? ==> Admit(Some(balance), b, Essential, reserved).admitted
    ensures Worst(balance, reserved).Spent? <==> exists c :: !Admit(Some(balance), c, Essential, reserved).admitted
    ensures Worst(balance, reserved).Spent? || Worst(balance, reserved).Reserved? <==>
      exists c :: !Admit(Some(balance), c, Convenience, reserved).admitted
  {
    hide PoolPosture;
    var worst := Worst(balance, reserved);
    forall c
      ensures Admit(Some(balance), c, Essential, reserved).admitted <==> PostureOf(balance, c, reserved) != Spent
      ensures Admit(Some(balance), c, Convenience, reserved).admitted <==>
        PostureOf(balance, c, reserved) != Spent && PostureOf(balance, c, reserved) != Reserved
    {
    }
    if worst.Spent? {
      var c :| PostureOf(balance, c, reserved) == Spent;
      assert !Admit(Some(balance), c, Essential, reserved).admitted;
      assert !Admit(Some(balance), c, Convenience, reserved).admitted;
    } else if worst.Reserved? {
      var c :| PostureOf(balance, c, reserved) == Reserved;
      assert !Admit(Some(balance), c, Convenience, reserved).admitted;
    }
  }

  /** Inside the band or spent, the fraction is below the reserved fraction. */
  lemma BandFraction(pool: Pool, b: Budget, reserved: real)
    requires ReadFrom(pool, b) && !PoolPosture(pool, reserved).Open?
    ensures pool.fraction <= 0.0 || pool.fraction < reserved
  {
  }

  /** Every pool of every answer that is in the band is watched at least every 30 seconds. */
  ghost predicate BandIsWatched(reserved: real) {
    forall pool, b {:trigger ReadFrom(pool, b)} ::
      ReadFrom(pool, b) && !PoolPosture(pool, reserved).Open? ==> StepMs(pool.fraction) <= 30_000
  }

  function Times(a: real, b: real): real {
    a * b
  }

  lemma TimesLess(a: real, b: real, c: real)
    requires a < b && c > 0.0
    ensures Times(a, c) < Times(b, c)
  {
  }

  lemma TimesMinus(a: real, b: real, c: real)
    ensures Times(a, b - c) == Times(a, b) - Times(a, c)
  {
  }

  lemma TimesQuotient(a: real, b: real, c: real)
    requires b > 0.0 && Times(b, c) < a
    ensures c < a / b
  {
    var q := a / b;
    assert Times(q, b) == a;
    assert Times(b, c) == Times(c, b);
    assert q == c ==> Times(q, b) == Times(c, b);
    if q < c { TimesLess(q, c, b); }
  }

  lemma Reciprocal(x: real) returns (r: real)
    requires x > 0.0
    ensures r > 0.0 && Times(r, x) == 1.0
  {
    r := 1.0 / x;
  }

  lemma LimitFor(gap: real) returns (limit: int)
    requires gap > 0.0
    ensures limit > 0 && Times(limit as real, gap) > 1.0
  {
    hide Times;
    var inverse := Reciprocal(gap);
    limit := inverse.Floor + 1;
    TimesLess(inverse, limit as real, gap);
  }

  /** A pool in the band of a wider reserve that is nevertheless above the ladder's band step. */
  lemma UnwatchedPool(reserved: real) returns (pool: Pool)
    requires RESERVED_FRACTION < reserved
    ensures ReadFrom(pool, Rest) && PoolPosture(pool, reserved).Reserved? && StepMs(pool.fraction) > 30_000
  {
    hide Times, Ceil, ReservedFloor;
    var limit := LimitFor(reserved - RESERVED_FRACTION);
    TimesMinus(limit as real, reserved, RESERVED_FRACTION);
    var low := Times(limit as real, RESERVED_FRACTION);
    var remaining := low.Floor + 1;
    pool := Pool(Rest, limit, remaining, 0, None, remaining as real / limit as real);
    FloorIs(pool, reserved);
    TimesQuotient(remaining as real, limit as real, RESERVED_FRACTION);
  }

  lemma FloorIs(pool: Pool, reserved: real)
    ensures pool.remaining < ReservedFloor(pool, reserved) <==>
            pool.remaining as real < Times(pool.limit as real, reserved)
  {
  }

  /** The band is watched every 30 seconds exactly for reserves up to the ladder's own fraction. */
  lemma BandIsWatchedIff(reserved: real)
    ensures BandIsWatched(reserved) <==> reserved <= RESERVED_FRACTION
  {
    if reserved <= RESERVED_FRACTION {
      forall pool, b | ReadFrom(pool, b) && !PoolPosture(pool, reserved).Open? ensures StepMs(pool.fraction) <= 30_000 {
        BandFraction(pool, b, reserved);
      }
    } else {
      var pool := UnwatchedPool(reserved);
      assert ReadFrom(pool, Rest);
    }
  }

  /** With the default reserve, a worst posture of reserved or spent means an ask within 30 seconds. */
  lemma ScarcityIsWatched(balance: Balance, reserved: real, ms: int)
    requires WellRead(balance) && reserved <= RESERVED_FRACTION
    requires Worst(balance, reserved).Spent? || Worst(balance, reserved).Reserved?
    requires IsLeastStep(balance, ms)
    ensures ms <= 30_000
  {
    BandIsWatchedIff(reserved);
    var b :| PostureOf(balance, b, reserved) == Worst(balance, reserved);
    assert Reported(balance, b) && ReadFrom(balance.At(b).value, b);
  }

  /** More left in the pool never revokes an admission. */
  lemma AdmissionIsMonotone(pool: Pool, more: int, b: Budget, criticality: Criticality, reserved: real)
    requires pool.remaining <= more
    ensures
      var richer := pool.(remaining := more);
      Admit(Some(Only(pool, b)), b, criticality, reserved).admitted ==>
      Admit(Some(Only(richer, b)), b, criticality, reserved).admitted
  {
  }

  function Only(pool: Pool, b: Budget): Balance {
    match b
    case Rest => Balance(Some(pool), None, None)
    case Graphql => Balance(None, Some(pool), None)
    case Search => Balance(None, None, Some(pool))
  }

  // ---------------------------------------------------------------------------
  // Reports
  // ---------------------------------------------------------------------------

  function ReportPools(balance: Option<Balance>): seq<Pool> {
    if balance.None? then []
    else Listed(balance.value.rest) + Listed(balance.value.graphql) + Listed(balance.value.search)
  }

  function Listed(pool: Option<Pool>): seq<Pool> {
    if pool.None? then [] else [pool.value]
  }

  function Put(balance: Balance, pool: Pool): Balance {
    match pool.name
    case Rest => balance.(rest := Some(pool))
    case Graphql => balance.(graphql := Some(pool))
    case Search => balance.(search := Some(pool))
  }

  const NOTHING := Balance(None, None, None)

  function Rekeyed(pools: seq<Pool>): Balance {
    if pools == [] then NOTHING else Put(Rekeyed(pools[..|pools| - 1]), pools[|pools| - 1])
  }

  method BalanceFromReport(pools: seq<Pool>) returns (balance: Balance)
    ensures balance == Rekeyed(pools)
  {
    balance := NOTHING;
    for i := 0 to |pools|
      invariant balance == Rekeyed(pools[..i])
    {
      assert pools[..i + 1][..i] == pools[..i];
      balance := Put(balance, pools[i]);
    }
    assert pools[..|pools|] == pools;
  }

  lemma RekeyedAppend(pools: seq<Pool>, pool: Option<Pool>)
    ensures Rekeyed(pools + Listed(pool)) == if pool.None? then Rekeyed(pools) else Put(Rekeyed(pools), pool.value)
  {
    var all := pools + Listed(pool);
    if pool.None? { assert all == pools; } else { assert all[..|all| - 1] == pools; }
  }

  /** Re-keying a report's pools gives back the balance it was built from. */
  lemma ReportRoundTrip(balance: Option<Balance>)
    requires balance.Some? ==> WellRead(balance.value)
    ensures Rekeyed(ReportPools(balance)) == if balance.None? then NOTHING else balance.value
  {
    if balance.Some? {
      var b := balance.value;
      assert b.At(Rest) == b.rest && b.At(Graphql) == b.graphql && b.At(Search) == b.search;
      RekeyedAppend([], b.rest);
      assert [] + Listed(b.rest) == Listed(b.rest);
      RekeyedAppend(Listed(b.rest), b.graphql);
      RekeyedAppend(Listed(b.rest) + Listed(b.graphql), b.search);
    }
  }

  /** A consumer of the report admits exactly what the daemon would. */
  lemma ReportAdmitsAlike(balance: Option<Balance>, b: Budget, criticality: Criticality, reserved: real)
    requires balance.Some? ==> WellRead(balance.value)
    ensures Admit(Some(Rekeyed(ReportPools(balance))), b, criticality, reserved)
         == Admit(balance, b, criticality, reserved)
  {
    hide Rekeyed, ReportPools;
    ReportRoundTrip(balance);
  }
}
