/** Diverting reads from a pressed pool to its fallback, by rungs with hysteresis. */
module Diversion {
  import opened Wrappers
  import opened RateBalance

  datatype Band = Stay | Low | High | Full

  function Rank(band: Band): nat {
    match band
    case Stay => 0
    case Low => 1
    case High => 2
    case Full => 3
  }

  function Enter(band: Band): real {
    match band
    case Stay => 0.0
    case Low => 0.7
    case High => 0.9
    case Full => 1.0
  }

  function Leave(band: Band): real {
    match band
    case Stay => 0.0
    case Low => 0.65
    case High => 0.85
    case Full => 0.98
  }

  function BudgetShare(band: Band): real {
    match band
    case Stay => 0.0
    case Low => 0.25
    case High => 0.6
    case Full => 1.0
  }

  function DiversionBand(pressure: real, previous: Option<Band>): Band {
    if pressure >= Enter(Full) then Full
    else if previous == Some(Full) && pressure >= Leave(Full) then Full
    else if pressure >= Enter(High) then High
    else if (previous == Some(Full) || previous == Some(High)) && pressure >= Leave(High) then High
    else if pressure >= Enter(Low) then Low
    else if previous.Some? && previous != Some(Stay) && pressure >= Leave(Low) then Low
    else Stay
  }

  /** A rung is in force when it is entered outright, or was reached before and is not yet left. */
  predicate InForce(band: Band, pressure: real, previous: Option<Band>) {
    pressure >= Enter(band) ||
    (previous.Some? && Rank(previous.value) >= Rank(band) && pressure >= Leave(band))
  }

  /** The chosen band is the highest rung in force. */
  lemma BandIsHighestInForce(pressure: real, previous: Option<Band>, band: Band)
    requires pressure >= 0.0
    ensures InForce(DiversionBand(pressure, previous), pressure, previous)
    ensures Rank(band) > Rank(DiversionBand(pressure, previous)) ==> !InForce(band, pressure, previous)
    ensures Rank(band) <= Rank(DiversionBand(pressure, previous)) ==> InForce(band, pressure, previous)
  {
  }

  // ---------------------------------------------------------------------------
  // Runs
  // ---------------------------------------------------------------------------

  /** The band after the pressures up to index i, each decision keeping the band of the one before. */
  function BandAt(pressures: seq<real>, start: Option<Band>, i: nat): Band
    requires i < |pressures|
  {
    DiversionBand(pressures[i], if i == 0 then start else Some(BandAt(pressures, start, i - 1)))
  }

  const SMALLEST_GAP: real := 0.02

  predicate Confined(pressures: seq<real>, low: real) {
    forall i :: 0 <= i < |pressures| ==> 0.0 <= pressures[i] && low <= pressures[i] <= low + SMALLEST_GAP
  }

  /** Whether any pressure of the window could enter the rung. */
  predicate Reachable(low: real, band: Band) {
    low + SMALLEST_GAP >= Enter(band)
  }

  /** One step: a rung the window can enter is never left, one it cannot enter is never reached. */
  lemma RungStep(pressures: seq<real>, start: Option<Band>, low: real, band: Band, i: nat)
    requires Confined(pressures, low) && i + 1 < |pressures|
    ensures Reachable(low, band) && Rank(BandAt(pressures, start, i)) >= Rank(band) ==>
              Rank(BandAt(pressures, start, i + 1)) >= Rank(band)
    ensures !Reachable(low, band) && Rank(BandAt(pressures, start, i)) < Rank(band) ==>
              Rank(BandAt(pressures, start, i + 1)) < Rank(band)
  {
    hide DiversionBand;
    var before := BandAt(pressures, start, i);
    BandIsHighestInForce(pressures[i + 1], Some(before), band);
  }

  lemma {:induction false} RungIsMonotone(
    pressures: seq<real>, start: Option<Band>, low: real, band: Band, i: nat, j: nat)
    requires Confined(pressures, low) && i <= j < |pressures|
    ensures Reachable(low, band) && Rank(BandAt(pressures, start, i)) >= Rank(band) ==>
              Rank(BandAt(pressures, start, j)) >= Rank(band)
    ensures !Reachable(low, band) && Rank(BandAt(pressures, start, i)) < Rank(band) ==>
              Rank(BandAt(pressures, start, j)) < Rank(band)
    decreases j - i
  {
    hide BandAt, Reachable;
    if i < j {
      RungIsMonotone(pressures, start, low, band, i, j - 1);
      RungStep(pressures, start, low, band, j - 1);
    }
  }

  lemma {:induction false} SameSide(
    pressures: seq<real>, start: Option<Band>, low: real, band: Band, i: nat, j: nat, k: nat)
    requires Confined(pressures, low) && i <= j <= k < |pressures|
    requires BandAt(pressures, start, i) == BandAt(pressures, start, k)
    ensures Rank(BandAt(pressures, start, i)) >= Rank(band) <==> Rank(BandAt(pressures, start, j)) >= Rank(band)
  {
    hide BandAt, Reachable;
    RungIsMonotone(pressures, start, low, band, i, j);
    RungIsMonotone(pressures, start, low, band, j, k);
  }

  /** Pressures no further apart than the smallest enter-leave gap never bring a left band back. */
  lemma {:induction false} NoBandIsRevisited(
    pressures: seq<real>, start: Option<Band>, low: real, i: nat, j: nat, k: nat)
    requires Confined(pressures, low) && i <= j <= k < |pressures|
    requires BandAt(pressures, start, i) == BandAt(pressures, start, k)
    ensures BandAt(pressures, start, j) == BandAt(pressures, start, i)
  {
    hide BandAt;
    SameSide(pressures, start, low, Low, i, j, k);
    SameSide(pressures, start, low, High, i, j, k);
    SameSide(pressures, start, low, Full, i, j, k);
  }

  /** Any wider window can: full, then high, then full again. */
  lemma WiderWindowFlaps(extra: real)
    requires 0.0 < extra <= 0.08
    ensures
      var pressures := [1.0, 1.0 - SMALLEST_GAP - extra, 1.0];
      && BandAt(pressures, None, 0) == Full
      && BandAt(pressures, None, 1) == High
      && BandAt(pressures, None, 2) == Full
  {
    var pressures := [1.0, 1.0 - SMALLEST_GAP - extra, 1.0];
    assert pressures[1] == 1.0 - SMALLEST_GAP - extra && pressures[2] == 1.0;
    assert BandAt(pressures, None, 0) == Full;
  }

  // ---------------------------------------------------------------------------
  // Shares and buckets
  // ---------------------------------------------------------------------------

  /** A UTF-16 code unit, and an unsigned 32-bit number. */
  type Unit = n: nat | n < 0x1_0000
  type Word = n: nat | n < 0x1_0000_0000

  /** FNV-1a over the key, as unsigned 32-bit arithmetic. */
  function Fnv(key: seq<Unit>): Word {
    if key == [] then FNV_BASIS else Mix(Fnv(key[..|key| - 1]), key[|key| - 1])
  }

  const FNV_BASIS: Word := 0x811c9dc5
  const FNV_PRIME: nat := 0x01000193

  /** Bit by bit, from the lowest. */
  function Xor(a: nat, b: nat): nat {
    if a == 0 && b == 0 then 0 else 2 * Xor(a / 2, b / 2) + (a + b) % 2
  }

  function Mix(hash: Word, unit: Unit): Word {
    Xor(hash, unit) * FNV_PRIME % 0x1_0000_0000
  }

  lemma {:induction false} XorCancels(a: nat, b: nat, c: nat)
    ensures Xor(a, b) == Xor(a, c) <==> b == c
    decreases a + b + c
  {
    if a + b + c > 0 { XorCancels(a / 2, b / 2, c / 2); }
  }

  lemma {:induction false} XorCommutes(a: nat, b: nat)
    ensures Xor(a, b) == Xor(b, a)
    decreases a + b
  {
    if a + b > 0 { XorCommutes(a / 2, b / 2); }
  }

  function Pow2(n: nat): nat {
    if n == 0 then 1 else 2 * Pow2(n - 1)
  }

  lemma {:induction false} XorBound(a: nat, b: nat, n: nat)
    requires a < Pow2(n) && b < Pow2(n)
    ensures Xor(a, b) < Pow2(n)
    decreases n
  {
    if a + b > 0 { XorBound(a / 2, b / 2, n - 1); }
  }

  lemma WordBits()
    ensures Pow2(32) == 0x1_0000_0000
  {
    assert Pow2(8) == 256;
    assert Pow2(16) == 256 * Pow2(8);
    assert Pow2(24) == 256 * Pow2(16);
    assert Pow2(32) == 256 * Pow2(24);
  }

  /** The prime is odd, so multiplying by it loses nothing of a word. */
  lemma PrimeIsOdd(x: Word, y: Word)
    requires x * FNV_PRIME % 0x1_0000_0000 == y * FNV_PRIME % 0x1_0000_0000
    ensures x == y
  {
    var d := x * FNV_PRIME / 0x1_0000_0000 - y * FNV_PRIME / 0x1_0000_0000;
    Remainders(x * FNV_PRIME, y * FNV_PRIME);
    OddInverse(x - y, d);
  }

  lemma Remainders(a: nat, b: nat)
    requires a % 0x1_0000_0000 == b % 0x1_0000_0000
    ensures a - b == (a / 0x1_0000_0000 - b / 0x1_0000_0000) * 0x1_0000_0000
  {
  }

  /** The inverse of the prime modulo 2^32 is 0x359c449b: their product is 1 + 3513497 * 2^32. */
  lemma OddInverse(difference: int, d: int)
    requires difference * FNV_PRIME == d * 0x1_0000_0000 && -0x1_0000_0000 < difference < 0x1_0000_0000
    ensures difference == 0
  {
    assert difference == 0x1_0000_0000 * (d * 0x359c449b - 3513497 * difference);
  }

  /** Keys that differ in their last unit alone, and hashes that differ before it, stay different. */
  lemma MixIsInjective(hash: Word, other: Word, unit: Unit, last: Unit)
    ensures Mix(hash, unit) == Mix(hash, last) <==> unit == last
    ensures Mix(hash, unit) == Mix(other, unit) <==> hash == other
  {
    hide Xor, Pow2;
    WordBits();
    XorBound(hash, unit, 32);
    XorBound(hash, last, 32);
    XorBound(other, unit, 32);
    XorCancels(hash, unit, last);
    XorCommutes(hash, unit);
    XorCommutes(other, unit);
    XorCancels(unit, hash, other);
    if Mix(hash, unit) == Mix(hash, last) { PrimeIsOdd(Xor(hash, unit), Xor(hash, last)); }
    if Mix(hash, unit) == Mix(other, unit) { PrimeIsOdd(Xor(hash, unit), Xor(other, unit)); }
  }

  const TWO_32: real := 4294967296.0

  function Bucket(key: seq<Unit>): (b: real)
    ensures 0.0 <= b < 1.0
  {
    Fnv(key) as real / TWO_32
  }

  method StableBucket(key: seq<Unit>) returns (bucket: real)
    ensures bucket == Bucket(key)
  {
    hide Mix;
    var hash := FNV_BASIS;
    for i := 0 to |key|
      invariant hash == Fnv(key[..i])
    {
      assert key[..i + 1][..i] == key[..i];
      hash := Mix(hash, key[i]);
    }
    assert key[..|key|] == key;
    bucket := hash as real / TWO_32;
  }

  /** The share of calls to divert: the budget share priced by what one call costs. */
  function Share(band: Band, cost: real): real
    requires cost > 0.0
  {
    if band.Full? then 1.0
    else if BudgetShare(band) / cost < 1.0 then BudgetShare(band) / cost
    else 1.0
  }

  predicate Diverted(key: seq<Unit>, band: Band, cost: real)
    requires cost > 0.0
  {
    Bucket(key) < Share(band, cost)
  }

  /** Climbing a rung only adds to the diverted reads; the top rung diverts all, none diverts nothing. */
  lemma DivertedSetGrows(key: seq<Unit>, a: Band, b: Band, cost: real)
    requires cost > 0.0 && Rank(a) <= Rank(b)
    ensures Diverted(key, a, cost) ==> Diverted(key, b, cost)
    ensures Diverted(key, Full, cost)
    ensures !Diverted(key, Stay, cost)
  {
    hide Bucket;
  }

  /** A dearer read is diverted no more often. */
  lemma DearerIsDivertedLess(key: seq<Unit>, band: Band, cheap: real, dear: real)
    requires 0.0 < cheap <= dear
    ensures Diverted(key, band, dear) ==> Diverted(key, band, cheap)
  {
    hide Bucket;
    var share := BudgetShare(band);
    assert share / dear <= share / cheap by { QuotientShrinks(share, cheap, dear); }
  }

  lemma QuotientShrinks(a: real, b: real, c: real)
    requires a >= 0.0 && 0.0 < b <= c
    ensures a / c <= a / b
  {
    var p, q := a / c, a / b;
    assert p * c == a && q * b == a;
    assert p >= 0.0;
    assert p * b <= p * c;
  }

  // ---------------------------------------------------------------------------
  // The decision
  // ---------------------------------------------------------------------------

  datatype Kind = Read | Write

  datatype Operation = Operation(kind: Kind, budget: Budget, fallback: Option<Budget>)

  datatype Decision = Decision(diverted: bool, band: Band, pressure: Option<real>, share: real)

  const WINDOW_MS: int := 3_600_000

  function PressureOf(pool: Pool): real {
    if pool.limit <= 0 then (if pool.remaining <= 0 then 1.0 else 0.0)
    else
      var ratio := pool.used as real / pool.limit as real;
      if ratio < 0.0 then 0.0 else if ratio > 1.0 then 1.0 else ratio
  }

  /** Whether the burn so far, kept up, empties the pool before its reset. */
  predicate ProjectsExhaustion(pool: Pool, now: Option<int>) {
    if pool.remaining <= 0 then true
    else if pool.used <= 0 then false
    else if now.None? || pool.resetAt.None? || pool.resetAt.value <= now.value then false
    else
      var untilReset := Min(WINDOW_MS, pool.resetAt.value - now.value);
      var elapsed := Max(1, WINDOW_MS - untilReset);
      pool.used as real / elapsed as real * untilReset as real >= pool.remaining as real
  }

  lemma RateTimes(used: real, elapsed: real, span: real, left: real)
    requires elapsed > 0.0
    ensures used / elapsed * span >= left <==> used * span >= left * elapsed
  {
    var rate := used / elapsed;
    assert rate * elapsed == used;
    assert used * span == (rate * span) * elapsed;
    if rate * span < left {
      TimesPositive(left - rate * span, elapsed);
      assert left * elapsed - (rate * span) * elapsed == (left - rate * span) * elapsed;
    } else if left < rate * span {
      TimesPositive(rate * span - left, elapsed);
      assert (rate * span) * elapsed - left * elapsed == (rate * span - left) * elapsed;
    }
  }

  lemma TimesPositive(a: real, b: real)
    requires a > 0.0 && b > 0.0
    ensures a * b > 0.0
  {
  }

  /**
   A pool in use, before its reset, projects exhaustion exactly when what it used per
   elapsed millisecond, over the milliseconds that are left of the window, reaches what
   remains; the window is the hour that ends at the reset.
   */
  lemma ProjectsIff(pool: Pool, now: int, reset: int)
    requires pool.resetAt == Some(reset) && pool.remaining > 0
    ensures
      var ahead := if reset - now < WINDOW_MS then reset - now else WINDOW_MS;
      var elapsed := if ahead < WINDOW_MS then WINDOW_MS - ahead else 1;
      ProjectsExhaustion(pool, Some(now)) <==>
      pool.used > 0 && now < reset && pool.used * ahead >= pool.remaining * elapsed
    ensures !ProjectsExhaustion(pool, None)
  {
    if pool.used > 0 && now < reset {
      var ahead := if reset - now < WINDOW_MS then reset - now else WINDOW_MS;
      var elapsed := if ahead < WINDOW_MS then WINDOW_MS - ahead else 1;
      RateTimes(pool.used as real, elapsed as real, ahead as real, pool.remaining as real);
      ExactProducts(pool.used, ahead);
      ExactProducts(pool.remaining, elapsed);
    }
  }

  lemma ExactProducts(a: int, b: int)
    ensures (a * b) as real == a as real * b as real
  {
  }

  function Staying(pressure: Option<real>): Decision {
    Decision(false, Stay, pressure, 0.0)
  }

  function Decide(
    balance: Balance, op: Operation, key: seq<Unit>, cost: real, now: Option<int>, previous: Option<Band>): Decision
  {
    if op.fallback.None? || !op.kind.Read? || op.budget.Search? then Staying(None)
    else if balance.At(op.budget).None? || balance.At(op.fallback.value).None? then Staying(None)
    else
      var source, destination := balance.At(op.budget).value, balance.At(op.fallback.value).value;
      var pressure := PressureOf(source);
      if cost <= 0.0 || (destination.remaining as real) < cost || PressureOf(destination) >= pressure
      then Staying(Some(pressure))
      else if !(source.remaining <= 0 || pressure >= 1.0) && !ProjectsExhaustion(source, now)
      then Staying(Some(pressure))
      else
        var band := DiversionBand(pressure, previous);
        if band.Stay? then Staying(Some(pressure))
        else Decision(Diverted(key, band, cost), band, Some(pressure), Share(band, cost))
  }

  /** Reads only ever move to a known pool that is strictly less pressed and can pay for them. */
  lemma DiversionIsSafe(
    balance: Balance, op: Operation, key: seq<Unit>, cost: real, now: Option<int>, previous: Option<Band>)
    requires Decide(balance, op, key, cost, now, previous).diverted
    ensures op.kind.Read? && !op.budget.Search? && op.fallback.Some? && op.fallback.value != op.budget
    ensures balance.At(op.budget).Some? && balance.At(op.fallback.value).Some?
    ensures
      var source, destination := balance.At(op.budget).value, balance.At(op.fallback.value).value;
      && (destination.remaining as real) >= cost
      && PressureOf(destination) < PressureOf(source)
      && PressureOf(source) >= Leave(Low)
      && (source.remaining <= 0 || PressureOf(source) >= 1.0 || ProjectsExhaustion(source, now))
  {
    hide ProjectsExhaustion, PressureOf, Diverted;
  }

  // ---------------------------------------------------------------------------
  // Runs of decisions
  // ---------------------------------------------------------------------------

  /** What one decision is asked, apart from the band held. */
  datatype Ask = Ask(balance: Balance, op: Operation, key: seq<Unit>, cost: real, now: Option<int>)
  {
    /** Whether the read may leave its pool at all: a known, healthier fallback that can pay, and a pool running out. */
    predicate Eligible() {
      && op.fallback.Some? && op.kind.Read? && !op.budget.Search?
      && balance.At(op.budget).Some? && balance.At(op.fallback.value).Some?
      && cost > 0.0 && (balance.At(op.fallback.value).value.remaining as real) >= cost
      && PressureOf(balance.At(op.fallback.value).value) < Pressure()
      && (var source := balance.At(op.budget).value;
          source.remaining <= 0 || Pressure() >= 1.0 || ProjectsExhaustion(source, now))
    }

    function Pressure(): (p: real)
      ensures p >= 0.0
    {
      if balance.At(op.budget).None? then 0.0 else PressureOf(balance.At(op.budget).value)
    }
  }

  /** The band after each decision of a run, every decision being told the band of the one before. */
  function DecidedAt(asks: seq<Ask>, start: Option<Band>, i: nat): Band
    requires i < |asks|
  {
    var a := asks[i];
    Decide(a.balance, a.op, a.key, a.cost, a.now, if i == 0 then start else Some(DecidedAt(asks, start, i - 1))).band
  }

  /** A decision that keeps the read where it is forgets the band held. */
  lemma DecisionResets(a: Ask, previous: Option<Band>)
    ensures Decide(a.balance, a.op, a.key, a.cost, a.now, previous).band
         == if a.Eligible() then DiversionBand(a.Pressure(), previous) else Stay
  {
    hide ProjectsExhaustion, Diverted, PressureOf, DiversionBand;
  }

  function Pressures(asks: seq<Ask>, i: nat, k: nat): (ps: seq<real>)
    requires i <= k < |asks|
    ensures |ps| == k - i + 1
    ensures forall t :: 0 <= t < |ps| ==> ps[t] == asks[i + t].Pressure()
  {
    seq(k - i + 1, (t: nat) requires t <= k - i => asks[i + t].Pressure())
  }

  /** Between eligible asks the decisions follow the band function. */
  lemma {:induction false} DecidedIsBand(
    asks: seq<Ask>, start: Option<Band>, i: nat, k: nat, previous: Option<Band>, t: nat)
    requires i <= i + t <= k < |asks| && previous == (if i == 0 then start else Some(DecidedAt(asks, start, i - 1)))
    requires forall j :: i <= j <= k ==> asks[j].Eligible()
    ensures DecidedAt(asks, start, i + t) == BandAt(Pressures(asks, i, k), previous, t)
  {
    hide Decide, DiversionBand, Pressures;
    if t > 0 { DecidedIsBand(asks, start, i, k, previous, t - 1); }
    DecisionResets(asks[i + t], if i + t == 0 then start else Some(DecidedAt(asks, start, i + t - 1)));
  }

  /** The pressures that count lie within the smallest enter-leave gap. */
  predicate Steady(asks: seq<Ask>, low: real) {
    forall j :: 0 <= j < |asks| && asks[j].Eligible() ==> low <= asks[j].Pressure() <= low + SMALLEST_GAP
  }

  lemma SteadyRunKeeps(asks: seq<Ask>, start: Option<Band>, low: real, i: nat, j: nat, k: nat)
    requires Steady(asks, low) && i <= j <= k < |asks|
    requires DecidedAt(asks, start, i) == DecidedAt(asks, start, k)
    requires forall t :: i <= t <= k ==> asks[t].Eligible()
    ensures DecidedAt(asks, start, j) == DecidedAt(asks, start, i)
  {
    hide DecidedAt, BandAt, DiversionBand;
    var previous := if i == 0 then start else Some(DecidedAt(asks, start, i - 1));
    DecidedIsBand(asks, start, i, k, previous, 0);
    DecidedIsBand(asks, start, i, k, previous, j - i);
    DecidedIsBand(asks, start, i, k, previous, k - i);
    NoBandIsRevisited(Pressures(asks, i, k), previous, low, 0, j - i, k - i);
  }

  /** From no band, only an eligible ask at the lowest entry pressure starts one. */
  lemma NoBandHolds(asks: seq<Ask>, start: Option<Band>, j: nat)
    requires j + 1 < |asks| && DecidedAt(asks, start, j) == Stay
    ensures DecidedAt(asks, start, j + 1) == Stay <==> !(asks[j + 1].Eligible() && asks[j + 1].Pressure() >= Enter(Low))
  {
    DecisionResets(asks[j + 1], Some(DecidedAt(asks, start, j)));
  }

  lemma {:induction false} NoBandHoldsOn(asks: seq<Ask>, start: Option<Band>, i: nat, k: nat)
    requires i <= k < |asks| && DecidedAt(asks, start, i) == Stay
    ensures (forall j :: i <= j <= k ==> DecidedAt(asks, start, j) == Stay)
       <==> (forall j :: i < j <= k ==> !(asks[j].Eligible() && asks[j].Pressure() >= Enter(Low)))
    decreases k - i
  {
    hide DecidedAt, Enter;
    if i < k {
      NoBandHolds(asks, start, i);
      if DecidedAt(asks, start, i + 1) == Stay {
        NoBandHoldsOn(asks, start, i + 1, k);
      }
    }
  }

  lemma IneligibleStays(asks: seq<Ask>, start: Option<Band>, j: nat)
    requires j < |asks| && !asks[j].Eligible()
    ensures DecidedAt(asks, start, j) == Stay
  {
    DecisionResets(asks[j], if j == 0 then start else Some(DecidedAt(asks, start, j - 1)));
  }

  /**
   Whole decisions under steady pressure: a run that ends in the band it began with
   kept it throughout exactly when every ask was eligible, or, for no band, when no
   eligible ask reached the lowest entry pressure.
   */
  lemma DecisionsKeepBandIff(asks: seq<Ask>, start: Option<Band>, low: real, i: nat, k: nat)
    requires Steady(asks, low) && i <= k < |asks|
    requires DecidedAt(asks, start, i) == DecidedAt(asks, start, k)
    ensures DecidedAt(asks, start, i) != Stay ==>
      ((forall j :: i <= j <= k ==> DecidedAt(asks, start, j) == DecidedAt(asks, start, i))
       <==> (forall j :: i <= j <= k ==> asks[j].Eligible()))
    ensures DecidedAt(asks, start, i) == Stay ==>
      ((forall j :: i <= j <= k ==> DecidedAt(asks, start, j) == Stay)
       <==> (forall j :: i < j <= k ==> !(asks[j].Eligible() && asks[j].Pressure() >= Enter(Low))))
  {
    hide DecidedAt, Enter, Steady, Ask.Eligible, Ask.Pressure;
    if DecidedAt(asks, start, i) == Stay {
      NoBandHoldsOn(asks, start, i, k);
    } else if forall j :: i <= j <= k ==> asks[j].Eligible() {
      forall j | i <= j <= k ensures DecidedAt(asks, start, j) == DecidedAt(asks, start, i) {
        SteadyRunKeeps(asks, start, low, i, j, k);
      }
    } else {
      var j :| i <= j <= k && !asks[j].Eligible();
      IneligibleStays(asks, start, j);
    }
  }

  const PRESSED := Pool(Graphql, 100, 25, 75, Some(1_800_000), 0.25)
  const IDLE := Pool(Rest, 100, 100, 0, None, 1.0)

  /** A read of the pressed pool; whether its fallback is reported varies. */
  function AskOf(key: seq<Unit>, fallback: Option<Pool>): Ask {
    Ask(Balance(fallback, Some(PRESSED), None), Operation(Read, Graphql, Some(Rest)), key, 1.0, Some(0))
  }

  lemma AskEligible(key: seq<Unit>)
    ensures AskOf(key, Some(IDLE)).Eligible() && !AskOf(key, None).Eligible()
    ensures AskOf(key, Some(IDLE)).Pressure() == 0.75 == AskOf(key, None).Pressure()
  {
    assert PressureOf(PRESSED) == 0.75;
    assert PressureOf(IDLE) == 0.0;
    assert ProjectsExhaustion(PRESSED, Some(0));
  }

  /** One read at an unmoving pressure between two others: diverting stops and starts again. */
  lemma DecisionsFlap(key: seq<Unit>)
    ensures
      var asks := [AskOf(key, Some(IDLE)), AskOf(key, None), AskOf(key, Some(IDLE))];
      && Steady(asks, 0.74)
      && DecidedAt(asks, None, 0) == Low && DecidedAt(asks, None, 1) == Stay && DecidedAt(asks, None, 2) == Low
  {
    hide Ask.Eligible, Ask.Pressure, AskOf, Decide;
    AskEligible(key);
    var good, bad := AskOf(key, Some(IDLE)), AskOf(key, None);
    DecisionResets(good, None);
    DecisionResets(bad, Some(Low));
    DecisionResets(good, Some(Stay));
    var asks := [good, bad, good];
    assert DecidedAt(asks, None, 0) == Low;
    assert DecidedAt(asks, None, 1) == Stay;
  }

  // ---------------------------------------------------------------------------
  // The ramp in numbers
  // ---------------------------------------------------------------------------

  /** The bands by their pressures: each is entered at its own and held down to a lower one. */
  lemma BandThresholds(pressure: real, previous: Option<Band>)
    ensures
      var band := DiversionBand(pressure, previous);
      && (band == Full <==> pressure >= 1.0 || (previous == Some(Full) && pressure >= 0.98))
      && (band == Full || band == High <==>
            pressure >= 0.9 || ((previous == Some(Full) || previous == Some(High)) && pressure >= 0.85))
      && (band == Stay <==>
            pressure < 0.65 || (pressure < 0.7 && (previous.None? || previous == Some(Stay))))
  {
  }

  /** What a share costs the destination: a quarter or six tenths of one unit a read, unless every read goes. */
  lemma ShareSpends(band: Band, cost: real)
    requires cost > 0.0
    ensures
      var share := Share(band, cost);
      && 0.0 <= share <= 1.0
      && (band == Stay ==> share == 0.0)
      && (band == Low ==> share * cost == 0.25 || (share == 1.0 && cost <= 0.25))
      && (band == High ==> share * cost == 0.6 || (share == 1.0 && cost <= 0.6))
      && (band == Full ==> share == 1.0)
  {
    QuotientIs(0.25, cost);
    QuotientIs(0.6, cost);
    QuotientIs(0.0, cost);
  }

  lemma QuotientIs(a: real, cost: real)
    requires cost > 0.0
    ensures (a / cost) * cost == a
    ensures a / cost >= 1.0 ==> cost <= a
    ensures a == 0.0 ==> a / cost == 0.0
  {
    var q := a / cost;
    assert q * cost == a;
  }

  /** How much of a pool's limit is used, from nothing to all; without a limit, whether anything is left. */
  lemma PressureIs(pool: Pool)
    ensures
      var p := PressureOf(pool);
      && 0.0 <= p <= 1.0
      && (pool.limit > 0 ==>
            && (p == 0.0 <==> pool.used <= 0) && (p == 1.0 <==> pool.used >= pool.limit)
            && (0 <= pool.used <= pool.limit ==> p * pool.limit as real == pool.used as real))
      && (pool.limit <= 0 ==> (p == 1.0 <==> pool.remaining <= 0) && (p == 0.0 <==> pool.remaining > 0))
  {
    if pool.limit > 0 {
      var used, limit := pool.used as real, pool.limit as real;
      var ratio := used / limit;
      assert ratio * limit == used;
      if ratio < 0.0 { TimesPositive(-ratio, limit); }
      if ratio > 0.0 { TimesPositive(ratio, limit); }
      if ratio < 1.0 { TimesPositive(1.0 - ratio, limit); }
      if ratio > 1.0 { TimesPositive(ratio - 1.0, limit); }
      assert (1.0 - ratio) * limit == limit - used;
    }
  }

  /** A pool with nothing left is exhausted, whatever the time. */
  lemma SpentIsExhausted(pool: Pool, now: Option<int>)
    ensures pool.remaining <= 0 ==> ProjectsExhaustion(pool, now)
    ensures pool.remaining > 0 && (now.None? || pool.resetAt.None?) ==> !ProjectsExhaustion(pool, now)
  {
  }

  /** A read is diverted exactly when it may leave its pool and its key's number falls into the share of its band. */
  lemma DivertedIff(a: Ask, previous: Option<Band>)
    ensures
      var d := Decide(a.balance, a.op, a.key, a.cost, a.now, previous);
      && (d.diverted <==> a.Eligible() && Bucket(a.key) < Share(DiversionBand(a.Pressure(), previous), a.cost))
      && d.share == (if a.Eligible() then Share(DiversionBand(a.Pressure(), previous), a.cost) else 0.0)
      && (a.Eligible() ==> d.pressure == Some(a.Pressure()))
  {
    hide ProjectsExhaustion, PressureOf, DiversionBand, Bucket;
    if a.Eligible() { ShareSpends(DiversionBand(a.Pressure(), previous), a.cost); }
  }
}
