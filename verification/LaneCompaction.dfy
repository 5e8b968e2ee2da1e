/**
 Compaction of the bounded lanes: three binary searches over the encoded size,
 and the append paths that keep a lane under its ceiling.

 A row is its timestamp (None when unreadable) and its encoded size. A lane
 encodes to one header and its rows, and to nothing when it is empty.
 */
module LaneCompaction {
  import opened Wrappers

  datatype Row = Row(ts: Option<int>, size: nat)

  function Sum(rows: seq<Row>): nat {
    if rows == [] then 0 else rows[0].size + Sum(rows[1..])
  }

  function Encoded(header: nat, rows: seq<Row>): nat {
    if rows == [] then 0 else header + Sum(rows)
  }

  // ---------------------------------------------------------------------------
  // The specification: drop the oldest dated rows, one at a time
  // ---------------------------------------------------------------------------

  /** The lane without its first `k` dated rows; undated rows are pinned. */
  function DropDated(rows: seq<Row>, k: nat): seq<Row> {
    if rows == [] then []
    else if rows[0].ts.Some? && k > 0 then DropDated(rows[1..], k - 1)
    else [rows[0]] + DropDated(rows[1..], k)
  }

  function Dated(rows: seq<Row>): seq<Row> {
    if rows == [] then [] else if rows[0].ts.Some? then [rows[0]] + Dated(rows[1..]) else Dated(rows[1..])
  }

  function Undated(rows: seq<Row>): seq<Row> {
    if rows == [] then [] else if rows[0].ts.None? then [rows[0]] + Undated(rows[1..]) else Undated(rows[1..])
  }

  predicate Fits(header: nat, rows: seq<Row>, k: nat, target: nat) {
    Encoded(header, DropDated(rows, k)) <= target
  }

  /** The linear scan: the least number of dated rows to drop, all of them if none suffices. */
  function Scan(header: nat, rows: seq<Row>, k: nat, target: nat): nat
    requires k <= |Dated(rows)|
    decreases |Dated(rows)| - k
  {
    if k == |Dated(rows)| || Fits(header, rows, k, target) then k else Scan(header, rows, k + 1, target)
  }

  /** Dropping keeps every undated row and the last dated ones, each in its order. */
  lemma {:induction false} DropKeepsLast(rows: seq<Row>, k: nat)
    requires k <= |Dated(rows)|
    ensures Undated(DropDated(rows, k)) == Undated(rows)
    ensures Dated(DropDated(rows, k)) == Dated(rows)[k..]
  {
    if rows != [] {
      var rest := rows[1..];
      if rows[0].ts.Some? && k > 0 {
        DropKeepsLast(rest, k - 1);
      } else if rows[0].ts.Some? {
        DropKeepsLast(rest, 0);
        var r := DropDated(rest, 0);
        assert ([rows[0]] + r)[1..] == r;
      } else {
        DropKeepsLast(rest, k);
        var r := DropDated(rest, k);
        assert ([rows[0]] + r)[1..] == r;
      }
    }
  }

  lemma {:induction false} DropShrinks(rows: seq<Row>, k: nat)
    ensures Sum(DropDated(rows, k + 1)) <= Sum(DropDated(rows, k)) <= Sum(rows)
    ensures |DropDated(rows, k + 1)| <= |DropDated(rows, k)| <= |rows|
  {
    if rows != [] {
      DropShrinks(rows[1..], k);
      if k > 0 { DropShrinks(rows[1..], k - 1); }
      var a, b := DropDated(rows[1..], k), DropDated(rows[1..], k + 1);
      assert ([rows[0]] + a)[1..] == a && ([rows[0]] + b)[1..] == b;
    }
  }

  /** Dropping more never encodes to more. */
  lemma {:induction false} FitsIsMonotone(header: nat, rows: seq<Row>, j: nat, k: nat, target: nat)
    requires j <= k && Fits(header, rows, j, target)
    ensures Fits(header, rows, k, target)
    decreases k - j
  {
    if j < k {
      DropShrinks(rows, j);
      FitsIsMonotone(header, rows, j + 1, k, target);
    }
  }

  /** The scan finds the longest run of last dated rows that fits beside the pinned ones. */
  lemma {:induction false} ScanIsLongest(header: nat, rows: seq<Row>, k: nat, target: nat)
    requires k <= |Dated(rows)|
    requires forall j :: 0 <= j < k ==> !Fits(header, rows, j, target)
    ensures
      var n := Scan(header, rows, k, target);
      && k <= n <= |Dated(rows)|
      && (forall j :: 0 <= j < n ==> !Fits(header, rows, j, target))
      && (n == |Dated(rows)| || Fits(header, rows, n, target))
    decreases |Dated(rows)| - k
  {
    if k < |Dated(rows)| && !Fits(header, rows, k, target) {
      ScanIsLongest(header, rows, k + 1, target);
    }
  }

  lemma ScanUnique(header: nat, rows: seq<Row>, n: nat, target: nat)
    requires n <= |Dated(rows)|
    requires forall j :: 0 <= j < n ==> !Fits(header, rows, j, target)
    requires n == |Dated(rows)| || Fits(header, rows, n, target)
    ensures n == Scan(header, rows, 0, target)
  {
    ScanIsLongest(header, rows, 0, target);
  }

  // ---------------------------------------------------------------------------
  // The source's selection by index sets
  // ---------------------------------------------------------------------------

  /** The rows whose index, counted from `base`, is selected. */
  function Select(rows: seq<Row>, base: nat, selected: set<nat>): seq<Row> {
    if rows == [] then []
    else if base in selected then [rows[0]] + Select(rows[1..], base + 1, selected)
    else Select(rows[1..], base + 1, selected)
  }

  function DatedIndices(rows: seq<Row>, base: nat): seq<nat> {
    if rows == [] then []
    else if rows[0].ts.Some? then [base] + DatedIndices(rows[1..], base + 1)
    else DatedIndices(rows[1..], base + 1)
  }

  lemma {:induction false} DatedIndicesAbove(rows: seq<Row>, base: nat)
    ensures |DatedIndices(rows, base)| == |Dated(rows)|
    ensures forall i :: 0 <= i < |DatedIndices(rows, base)| ==> DatedIndices(rows, base)[i] >= base
  {
    if rows != [] { DatedIndicesAbove(rows[1..], base + 1); }
  }

  /** `selected` keeps every undated index, and a dated one exactly if it is not among the first k. */
  ghost predicate Keeps(rows: seq<Row>, base: nat, k: nat, selected: set<nat>)
    requires k <= |DatedIndices(rows, base)|
  {
    && (forall i :: 0 <= i < |rows| && rows[i].ts.None? ==> base + i in selected)
    && (forall i :: 0 <= i < |DatedIndices(rows, base)| ==> (DatedIndices(rows, base)[i] in selected <==> i >= k))
  }

  /** Selecting by the index sets is dropping the first k dated rows. */
  lemma {:induction false} SelectDrops(rows: seq<Row>, base: nat, k: nat, selected: set<nat>)
    requires k <= |DatedIndices(rows, base)| && Keeps(rows, base, k, selected)
    ensures Select(rows, base, selected) == DropDated(rows, k)
  {
    if rows != [] {
      var all, rest := DatedIndices(rows, base), DatedIndices(rows[1..], base + 1);
      forall i | 0 <= i < |rows[1..]| && rows[1..][i].ts.None? ensures base + 1 + i in selected {
        assert rows[i + 1].ts.None?;
      }
      if rows[0].ts.Some? {
        assert all == [base] + rest && all[0] == base;
        forall i | 0 <= i < |rest| ensures rest[i] in selected <==> i >= (if k > 0 then k - 1 else 0) {
          assert all[i + 1] == rest[i];
        }
        SelectDrops(rows[1..], base + 1, if k > 0 then k - 1 else 0, selected);
      } else {
        assert all == rest;
        assert rows[0].ts.None? && base + 0 in selected;
        SelectDrops(rows[1..], base + 1, k, selected);
      }
    }
  }

  /** The index list is exactly the dated indices, in increasing order. */
  lemma {:induction false} DatedIndicesAre(rows: seq<Row>, base: nat)
    ensures forall i, j :: 0 <= i < j < |DatedIndices(rows, base)| ==>
      DatedIndices(rows, base)[i] < DatedIndices(rows, base)[j]
    ensures forall i :: 0 <= i < |DatedIndices(rows, base)| ==>
      var at := DatedIndices(rows, base)[i] - base; 0 <= at < |rows| && rows[at].ts.Some?
  {
    if rows != [] {
      var all, rest := DatedIndices(rows, base), DatedIndices(rows[1..], base + 1);
      DatedIndicesAre(rows[1..], base + 1);
      DatedIndicesAbove(rows[1..], base + 1);
      if rows[0].ts.Some? {
        forall i | 0 <= i < |all| ensures var at := all[i] - base; 0 <= at < |rows| && rows[at].ts.Some? {
          if i > 0 { assert all[i] == rest[i - 1]; }
        }
      }
    }
  }

  /** The sets the source builds satisfy the selection's precondition. */
  lemma IndexSetsKeep(rows: seq<Row>, k: nat, pinned: set<nat>, optional: seq<nat>)
    requires optional == DatedIndices(rows, 0) && k <= |optional|
    requires pinned == set i | 0 <= i < |rows| && rows[i].ts.None?
    ensures Keeps(rows, 0, k, pinned + (set i | k <= i < |optional| :: optional[i]))
  {
    DatedIndicesAre(rows, 0);
    var tail := set i | k <= i < |optional| :: optional[i];
    forall i | 0 <= i < |optional| ensures optional[i] in pinned + tail <==> i >= k {
      if optional[i] in tail {
        var j :| k <= j < |optional| && optional[j] == optional[i];
      }
    }
  }

  lemma DatedIndicesSnoc(rows: seq<Row>, n: nat)
    requires n < |rows|
    ensures DatedIndices(rows[..n + 1], 0) == DatedIndices(rows[..n], 0) + if rows[n].ts.Some? then [n] else []
  {
    DatedIndicesSnocFrom(rows[..n], rows[n], 0);
    assert rows[..n + 1] == rows[..n] + [rows[n]];
  }

  lemma {:induction false} DatedIndicesSnocFrom(rows: seq<Row>, last: Row, base: nat)
    ensures DatedIndices(rows + [last], base)
         == DatedIndices(rows, base) + if last.ts.Some? then [base + |rows|] else []
  {
    if rows == [] {
      assert ([] + [last])[1..] == [];
    } else {
      assert (rows + [last])[1..] == rows[1..] + [last];
      DatedIndicesSnocFrom(rows[1..], last, base + 1);
    }
  }

  /**
   retainDeathRecordsWithin: the binary search over index sets returns what the
   linear scan specifies.
   */
  method RetainWithin(header: nat, rows: seq<Row>, target: nat) returns (kept: seq<Row>)
    ensures kept == DropDated(rows, Scan(header, rows, 0, target))
  {
    var pinned: set<nat> := {};
    var optional: seq<nat> := [];
    var index := 0;
    while index < |rows|
      invariant 0 <= index <= |rows|
      invariant optional == DatedIndices(rows[..index], 0)
      invariant pinned == set i | 0 <= i < index && rows[i].ts.None?
    {
      DatedIndicesSnoc(rows, index);
      if rows[index].ts.Some? {
        optional := optional + [index];
      } else {
        pinned := pinned + {index};
      }
      index := index + 1;
    }
    assert rows[..index] == rows;
    DatedIndicesAbove(rows, 0);

    var low, high := 0, |optional|;
    while low < high
      invariant 0 <= low <= high <= |optional|
      invariant forall j :: 0 <= j < low ==> !Fits(header, rows, j, target)
      invariant high == |optional| || Fits(header, rows, high, target)
    {
      var middle := (low + high) / 2;
      var selected := pinned + (set i | middle <= i < |optional| :: optional[i]);
      IndexSetsKeep(rows, middle, pinned, optional);
      SelectDrops(rows, 0, middle, selected);
      var candidate := Select(rows, 0, selected);
      if Encoded(header, candidate) <= target {
        high := middle;
      } else {
        forall j | 0 <= j <= middle ensures !Fits(header, rows, j, target) {
          if Fits(header, rows, j, target) { FitsIsMonotone(header, rows, j, middle, target); }
        }
        low := middle + 1;
      }
    }
    ScanUnique(header, rows, low, target);
    var selected := pinned + (set i | low <= i < |optional| :: optional[i]);
    IndexSetsKeep(rows, low, pinned, optional);
    SelectDrops(rows, 0, low, selected);
    kept := Select(rows, 0, selected);
  }

  // ---------------------------------------------------------------------------
  // The age window
  // ---------------------------------------------------------------------------

  /** The rows a cutoff keeps: the undated and the recent ones. */
  function Recent(rows: seq<Row>, cutoff: int): seq<Row> {
    if rows == [] then []
    else if rows[0].ts.None? || rows[0].ts.value >= cutoff then [rows[0]] + Recent(rows[1..], cutoff)
    else Recent(rows[1..], cutoff)
  }

  lemma {:induction false} RecentKeepsUndated(rows: seq<Row>, cutoff: int)
    ensures Undated(Recent(rows, cutoff)) == Undated(rows)
    ensures Sum(Recent(rows, cutoff)) <= Sum(rows)
  {
    if rows != [] {
      RecentKeepsUndated(rows[1..], cutoff);
      var rest := Recent(rows[1..], cutoff);
      assert ([rows[0]] + rest)[1..] == rest;
    }
  }

  /** retainAttributions: age first, and only an oversized lane is cut to the target. */
  method RetainAttributions(header: nat, rows: seq<Row>, cutoff: int, maxBytes: nat, target: nat)
    returns (kept: seq<Row>)
    ensures
      var recent := Recent(rows, cutoff);
      kept == if Encoded(header, recent) <= maxBytes then recent
              else DropDated(recent, Scan(header, recent, 0, target))
    ensures Undated(kept) == Undated(rows)
  {
    var recent := Recent(rows, cutoff);
    RecentKeepsUndated(rows, cutoff);
    if Encoded(header, recent) <= maxBytes {
      return recent;
    }
    kept := RetainWithin(header, recent, target);
    ScanIsLongest(header, recent, 0, target);
    DropKeepsLast(recent, Scan(header, recent, 0, target));
  }

  // ---------------------------------------------------------------------------
  // The spend ledger's search: how many last rows to keep
  // ---------------------------------------------------------------------------

  /** Each row re-encoded on its own, with its own header. */
  function EncodedEach(header: nat, rows: seq<Row>): nat {
    if rows == [] then 0 else header + rows[0].size + EncodedEach(header, rows[1..])
  }

  predicate LastFit(header: nat, rows: seq<Row>, m: nat, incoming: nat, target: nat)
    requires m <= |rows|
  {
    EncodedEach(header, rows[|rows| - m..]) + incoming <= target
  }

  lemma {:induction false} LastFitIsMonotone(header: nat, rows: seq<Row>, j: nat, m: nat, incoming: nat, target: nat)
    requires j <= m <= |rows| && LastFit(header, rows, m, incoming, target)
    ensures LastFit(header, rows, j, incoming, target)
    decreases m - j
  {
    if j < m {
      var s := rows[|rows| - m..];
      assert s[1..] == rows[|rows| - (m - 1)..];
      LastFitIsMonotone(header, rows, j, m - 1, incoming, target);
    }
  }

  /** The linear scan down from all rows: the largest number of last rows that fits, or none. */
  function ScanLast(header: nat, rows: seq<Row>, m: nat, incoming: nat, target: nat): (keep: nat)
    requires m <= |rows|
    ensures keep <= m && (keep == 0 || LastFit(header, rows, keep, incoming, target))
    ensures forall j :: keep < j <= m ==> !LastFit(header, rows, j, incoming, target)
  {
    if m == 0 || LastFit(header, rows, m, incoming, target) then m else ScanLast(header, rows, m - 1, incoming, target)
  }

  /** keepLastWithin: the binary search finds what the scan specifies. */
  method KeepLastWithin(header: nat, rows: seq<Row>, incoming: nat, target: nat) returns (keep: nat)
    ensures keep == ScanLast(header, rows, |rows|, incoming, target)
  {
    var low, high := 0, |rows|;
    while low < high
      invariant 0 <= low <= high <= |rows|
      invariant low == 0 || LastFit(header, rows, low, incoming, target)
      invariant forall m :: high < m <= |rows| ==> !LastFit(header, rows, m, incoming, target)
    {
      var middle := (low + high + 1) / 2;
      if EncodedEach(header, rows[|rows| - middle..]) + incoming <= target {
        low := middle;
      } else {
        forall m | middle <= m <= |rows| ensures !LastFit(header, rows, m, incoming, target) {
          if LastFit(header, rows, m, incoming, target) {
            LastFitIsMonotone(header, rows, middle, m, incoming, target);
          }
        }
        high := middle - 1;
      }
    }
    keep := low;
  }

  // ---------------------------------------------------------------------------
  // Appends under a ceiling
  // ---------------------------------------------------------------------------

  /** The room a forced compaction leaves: half the generation, less the incoming line. */
  function CompactionTarget(half: nat, line: nat): nat {
    if half < line then 0 else half - line
  }

  lemma {:induction false} AllDropped(rows: seq<Row>)
    ensures DropDated(rows, |Dated(rows)|) == Undated(rows)
  {
    if rows != [] { AllDropped(rows[1..]); }
  }

  lemma {:induction false} UndatedIsLess(rows: seq<Row>)
    ensures Sum(Undated(rows)) <= Sum(rows) && |Undated(rows)| <= |rows|
  {
    if rows != [] {
      UndatedIsLess(rows[1..]);
      var rest := Undated(rows[1..]);
      assert ([rows[0]] + rest)[1..] == rest;
    }
  }

  /**
   After a forced compaction and the append, the lane is within its ceiling
   exactly when the pinned rows and the incoming line are.
   */
  lemma CompactedFitsIff(header: nat, rows: seq<Row>, maxBytes: nat, half: nat, line: nat)
    requires half <= maxBytes
    ensures
      var kept := DropDated(rows, Scan(header, rows, 0, CompactionTarget(half, line)));
      Encoded(header, kept) + line <= maxBytes <==> Encoded(header, Undated(rows)) + line <= maxBytes
  {
    var target := CompactionTarget(half, line);
    var k := Scan(header, rows, 0, target);
    ScanIsLongest(header, rows, 0, target);
    AllDropped(rows);
    DropKeepsLast(rows, k);
    UndatedIsLess(DropDated(rows, k));
  }

  /** A death lane: its rows, the bytes they occupy as they were appended, and how it ends. */
  datatype Lane = Lane(rows: seq<Row>, size: nat, endsClean: bool)

  /** The ceiling, half of it, the age window and the header of one encoding. */
  datatype Limits = Limits(header: nat, maxBytes: nat, half: nat, retentionMs: nat)

  function Compacted(l: Limits, rows: seq<Row>, now: int, target: nat): Lane {
    var recent := Recent(rows, now - l.retentionMs);
    var kept := DropDated(recent, Scan(l.header, recent, 0, target));
    Lane(kept, Encoded(l.header, kept), true)
  }

  /** The line would cross the ceiling. */
  predicate OverCeiling(l: Limits, lane: Lane, row: Row) {
    lane.size + (if lane.endsClean then 0 else 1) + l.header + row.size > l.maxBytes
  }

  /** One append: compact if the line would cross the ceiling, else close an unterminated tail. */
  function Appended(l: Limits, lane: Lane, row: Row, now: int): Lane {
    var line := l.header + row.size;
    var base :=
      if OverCeiling(l, lane, row) then Compacted(l, lane.rows, now, CompactionTarget(l.half, line))
      else if !lane.endsClean && lane.size > 0 then lane.(size := lane.size + 1)
      else lane;
    Lane(base.rows + [row], base.size + line, true)
  }

  /**
   The lane ends within its ceiling exactly when it had room, or when its
   undated rows, which no compaction drops, and the line fit together.
   */
  lemma AppendFitsIff(l: Limits, lane: Lane, row: Row, now: int)
    requires l.half <= l.maxBytes
    ensures Appended(l, lane, row, now).size <= l.maxBytes <==>
      !OverCeiling(l, lane, row) || Encoded(l.header, Undated(lane.rows)) + l.header + row.size <= l.maxBytes
  {
    RecentKeepsUndated(lane.rows, now - l.retentionMs);
    CompactedFitsIff(l.header, Recent(lane.rows, now - l.retentionMs), l.maxBytes, l.half, l.header + row.size);
  }

  class DeathLane {
    const limits: Limits
    var rows: seq<Row>
    var size: nat
    var endsClean: bool

    ghost function Value(): Lane
      reads this
    {
      Lane(rows, size, endsClean)
    }

    constructor (limits: Limits)
      ensures Value() == Lane([], 0, true) && this.limits == limits
    {
      this.limits := limits;
      rows, size, endsClean := [], 0, true;
    }

    /** compactProcessDeathLaneToTarget with a forced target: one fresh segment replaces the lane. */
    method Compact(now: int, target: nat)
      modifies this
      ensures Value() == Compacted(limits, old(rows), now, target)
    {
      var recent := Recent(rows, now - limits.retentionMs);
      var kept := RetainWithin(limits.header, recent, target);
      rows, size, endsClean := kept, Encoded(limits.header, kept), true;
    }

    /** appendProcessDeathRecord. */
    method Append(row: Row, now: int)
      modifies this
      ensures Value() == Appended(limits, old(Value()), row, now)
    {
      var line := limits.header + row.size;
      var separator := if endsClean then 0 else 1;
      if size + separator + line > limits.maxBytes {
        Compact(now, CompactionTarget(limits.half, line));
      } else if !endsClean && size > 0 {
        size := size + 1;
      }
      rows, size, endsClean := rows + [row], size + line, true;
    }
  }

  // ---------------------------------------------------------------------------
  // Over any run of appends
  // ---------------------------------------------------------------------------

  /** One append of the run: a row and the instant it is written. */
  datatype Write = Write(row: Row, now: int)

  function AppendedAll(l: Limits, writes: seq<Write>): Lane {
    if writes == [] then Lane([], 0, true)
    else
      var last := writes[|writes| - 1];
      Appended(l, AppendedAll(l, writes[..|writes| - 1]), last.row, last.now)
  }

  ghost predicate AllDated(rows: seq<Row>) {
    forall i :: 0 <= i < |rows| ==> rows[i].ts.Some?
  }

  lemma {:induction false} DropStaysDated(rows: seq<Row>, k: nat, cutoff: int)
    requires AllDated(rows)
    ensures AllDated(DropDated(rows, k)) && AllDated(Recent(rows, cutoff)) && Undated(rows) == []
  {
    if rows != [] {
      DropStaysDated(rows[1..], if k > 0 then k - 1 else 0, cutoff);
    }
  }

  /** A lane of dated records never exceeds its ceiling, whatever is appended and whenever. */
  lemma {:induction false} DatedLaneStaysBounded(l: Limits, writes: seq<Write>)
    requires l.half <= l.maxBytes
    requires forall i :: 0 <= i < |writes| ==> writes[i].row.ts.Some? && l.header + writes[i].row.size <= l.maxBytes
    ensures var lane := AppendedAll(l, writes); AllDated(lane.rows) && lane.size <= l.maxBytes
  {
    if writes != [] {
      var init, last := writes[..|writes| - 1], writes[|writes| - 1];
      DatedLaneStaysBounded(l, init);
      var lane := AppendedAll(l, init);
      AppendFitsIff(l, lane, last.row, last.now);
      DropStaysDated(lane.rows, 0, last.now - l.retentionMs);
      var recent := Recent(lane.rows, last.now - l.retentionMs);
      var target := CompactionTarget(l.half, l.header + last.row.size);
      DropStaysDated(recent, Scan(l.header, recent, 0, target), 0);
    }
  }

  /** The spend ledger's serialised appends; a refused one leaves the lane to the next. */
  class SpendLane {
    const header: nat
    const ceiling: nat
    const half: nat
    var rows: seq<Row>
    var size: nat

    ghost predicate Valid()
      reads this
    {
      half <= ceiling && size <= ceiling
    }

    constructor (header: nat, ceiling: nat, half: nat)
      requires half <= ceiling
      ensures Valid() && rows == [] && size == 0
      ensures this.header == header && this.ceiling == ceiling && this.half == half
    {
      this.header, this.ceiling, this.half := header, ceiling, half;
      rows, size := [], 0;
    }

    /** How many last rows stay when `row` arrives. */
    ghost function Keep(row: Row): (keep: nat)
      reads this
      ensures keep <= |rows|
    {
      var incoming := header + row.size;
      if size + incoming <= ceiling then |rows|
      else ScanLast(header, rows, |rows|, incoming, if half > incoming then half else incoming)
    }

    /** One write of the chain: the lane keeps its ceiling, and only an oversized segment is refused. */
    method Record(row: Row) returns (ok: bool)
      requires Valid()
      modifies this
      ensures Valid()
      ensures ok == (header + row.size <= ceiling)
      ensures !ok ==> rows == old(rows) && size == old(size)
      ensures ok ==> rows == old(rows)[|old(rows)| - old(Keep(row))..] + [row]
    {
      hide ScanLast, EncodedEach, Encoded;
      var incoming := header + row.size;
      if size + incoming > ceiling {
        if incoming > ceiling {
          return false;
        }
        var target := if half > incoming then half else incoming;
        var keep := KeepLastWithin(header, rows, incoming, target);
        var kept := rows[|rows| - keep..];
        KeptFits(header, rows, incoming, target);
        rows, size := kept, Encoded(header, kept);
      } else {
        assert rows[0..] == rows;
      }
      rows, size := rows + [row], size + incoming;
      return true;
    }
  }

  /** What stays fits with the incoming segment, under one header of its own. */
  lemma KeptFits(header: nat, rows: seq<Row>, incoming: nat, target: nat)
    requires incoming <= target
    ensures
      var keep := ScanLast(header, rows, |rows|, incoming, target);
      keep <= |rows| && Encoded(header, rows[|rows| - keep..]) + incoming <= target
  {
    hide ScanLast, EncodedEach;
    var keep := ScanLast(header, rows, |rows|, incoming, target);
    SharedHeaderIsLess(header, rows[|rows| - keep..]);
  }

  /** One shared header costs no more than one per row. */
  lemma {:induction false} SharedHeaderIsLess(header: nat, rows: seq<Row>)
    ensures Encoded(header, rows) <= EncodedEach(header, rows)
    ensures Sum(rows) <= EncodedEach(header, rows)
  {
    if rows != [] { SharedHeaderIsLess(header, rows[1..]); }
  }

  // ---------------------------------------------------------------------------
  // Sizes, ages, and a run that never fills the lane
  // ---------------------------------------------------------------------------

  lemma {:induction false} SumLast(rows: seq<Row>, row: Row)
    ensures Sum(rows + [row]) == Sum(rows) + row.size
  {
    if rows == [] {
      assert [] + [row] == [row] && [row][1..] == [];
    } else {
      assert (rows + [row])[1..] == rows[1..] + [row];
      SumLast(rows[1..], row);
    }
  }

  /** One segment pays for its header once, however many rows it holds, and nothing when it holds none. */
  lemma EncodedIs(header: nat, rows: seq<Row>, row: Row)
    ensures Encoded(header, []) == 0
    ensures Encoded(header, rows + [row]) == row.size + if rows == [] then header else Encoded(header, rows)
  {
    SumLast(rows, row);
  }

  /** Rows appended one by one pay for it each time. */
  lemma {:induction false} EncodedEachIs(header: nat, rows: seq<Row>, row: Row)
    ensures EncodedEach(header, []) == 0
    ensures EncodedEach(header, rows + [row]) == EncodedEach(header, rows) + header + row.size
  {
    if rows == [] {
      assert [] + [row] == [row] && [row][1..] == [];
    } else {
      assert (rows + [row])[1..] == rows[1..] + [row];
      EncodedEachIs(header, rows[1..], row);
    }
  }

  lemma {:induction false} RecentAppend(a: seq<Row>, b: seq<Row>, cutoff: int)
    ensures Recent(a + b, cutoff) == Recent(a, cutoff) + Recent(b, cutoff)
  {
    if a == [] {
      assert a + b == b;
    } else {
      assert (a + b)[1..] == a[1..] + b;
      RecentAppend(a[1..], b, cutoff);
    }
  }

  /** The age window judges rows one by one, in order: a row goes exactly when it has a date before the cutoff. */
  lemma RecentIsOneByOne(a: seq<Row>, row: Row, b: seq<Row>, cutoff: int)
    ensures Recent([], cutoff) == []
    ensures Recent(a + [row] + b, cutoff) == Recent(a, cutoff)
      + (if row.ts.Some? && row.ts.value < cutoff then [] else [row]) + Recent(b, cutoff)
  {
    RecentAppend(a + [row], b, cutoff);
    RecentAppend(a, [row], cutoff);
    assert [row][1..] == [];
  }

  /** Half the generation less the line, and never less than nothing. */
  lemma CompactionTargetIs(half: nat, line: nat)
    ensures CompactionTarget(half, line) >= half - line
    ensures CompactionTarget(half, line) == half - line || (CompactionTarget(half, line) == 0 && line > half)
  {
  }

  function RowsOf(writes: seq<Write>): seq<Row> {
    seq(|writes|, i requires 0 <= i < |writes| => writes[i].row)
  }

  /** While all lines ever written fit, the lane is just those lines. */
  lemma {:induction false} UnfilledLaneKeepsAll(l: Limits, writes: seq<Write>)
    requires EncodedEach(l.header, RowsOf(writes)) <= l.maxBytes
    ensures AppendedAll(l, writes) == Lane(RowsOf(writes), EncodedEach(l.header, RowsOf(writes)), true)
  {
    if writes == [] {
      assert RowsOf(writes) == [];
    } else {
      var init, last := writes[..|writes| - 1], writes[|writes| - 1];
      assert RowsOf(writes) == RowsOf(init) + [last.row];
      EncodedEachIs(l.header, RowsOf(init), last.row);
      UnfilledLaneKeepsAll(l, init);
    }
  }
}
