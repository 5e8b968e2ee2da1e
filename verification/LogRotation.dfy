/**
 Size-bounded rotation of the diagnostic log over `fileCount` files.

 File 0 is the current one, file i + 1 is older than file i. The specification
 keeps each file as a sequence of whole records; the class keeps bytes.
 */
module LogRotation {
  import opened Wrappers

  /** Text as bytes: one character stands for one byte. */
  type Bytes = string

  const NEWLINE := '\n'
  const RETURN := '\r'
  const SPACE := ' '

  // ---------------------------------------------------------------------------
  // The specification: files of whole records, newest file first
  // ---------------------------------------------------------------------------

  datatype Record = Record(bytes: Bytes)

  datatype File = File(records: seq<Record>) {
    function Size(): nat {
      SizeOf(records)
    }
  }

  function SizeOf(records: seq<Record>): nat {
    if records == [] then 0 else SizeOf(records[..|records| - 1]) + |records[|records| - 1].bytes|
  }

  function Content(records: seq<Record>): (c: Bytes)
    ensures |c| == SizeOf(records)
  {
    if records == [] then [] else Content(records[..|records| - 1]) + records[|records| - 1].bytes
  }

  /** Every record still on disk, oldest first. */
  function Retained(files: seq<File>): seq<Record> {
    if files == [] then [] else Retained(files[1..]) + files[0].records
  }

  function Total(files: seq<File>): nat {
    if files == [] then 0 else files[0].Size() + Total(files[1..])
  }

  function Older(files: seq<File>, fileCount: nat): seq<File>
    requires 1 <= fileCount
  {
    files[..if |files| < fileCount then |files| else fileCount - 1]
  }

  function CurrentSize(files: seq<File>): nat {
    if files == [] then 0 else files[0].Size()
  }

  /** One successful write: append, after a rotation if the record would not fit. */
  function Written(files: seq<File>, r: Record, maxBytes: nat, fileCount: nat): seq<File>
    requires 1 <= fileCount
  {
    if CurrentSize(files) + |r.bytes| > maxBytes then [File([r])] + Older(files, fileCount)
    else if files == [] then [File([r])]
    else files[0 := File(files[0].records + [r])]
  }

  function WrittenAll(history: seq<Record>, maxBytes: nat, fileCount: nat): seq<File>
    requires 1 <= fileCount
  {
    if history == [] then []
    else Written(WrittenAll(history[..|history| - 1], maxBytes, fileCount), history[|history| - 1], maxBytes, fileCount)
  }

  /** No record is empty and none exceeds a file. */
  ghost predicate Fit(records: seq<Record>, maxBytes: nat) {
    forall i :: 0 <= i < |records| ==> 0 < |records[i].bytes| <= maxBytes
  }

  /** Two adjacent files do not fit in one. */
  ghost predicate Overflows(files: seq<File>, i: nat, maxBytes: nat)
    requires i + 1 < |files|
  {
    files[i].Size() + files[i + 1].Size() > maxBytes
  }

  /** What holds after any run of writes. */
  ghost predicate Bounded(files: seq<File>, maxBytes: nat, fileCount: nat) {
    && |files| <= fileCount
    && (forall i :: 0 <= i < |files| ==> files[i].records != [] && files[i].Size() <= maxBytes)
    && (forall i: nat {:trigger Overflows(files, i, maxBytes)} :: i + 1 < |files| ==> Overflows(files, i, maxBytes))
  }

  lemma {:induction false} ContentAppend(f: seq<Record>, r: Record)
    ensures Content(f + [r]) == Content(f) + r.bytes
    ensures SizeOf(f + [r]) == SizeOf(f) + |r.bytes|
  {
    assert (f + [r])[..|f|] == f;
  }

  lemma RotationKeepsBounds(files: seq<File>, r: Record, n: nat, maxBytes: nat, fileCount: nat)
    requires 0 < |r.bytes| <= maxBytes && n < fileCount && n <= |files|
    requires Bounded(files, maxBytes, fileCount)
    requires files != [] ==> files[0].Size() + |r.bytes| > maxBytes
    ensures Bounded([File([r])] + files[..n], maxBytes, fileCount)
  {
    ContentAppend([], r);
    assert [] + [r] == [r];
    var after := [File([r])] + files[..n];
    forall i: nat {:trigger Overflows(after, i, maxBytes)} | i + 1 < |after| ensures Overflows(after, i, maxBytes) {
      assert i > 0 ==> Overflows(files, i - 1, maxBytes);
    }
  }

  lemma AppendKeepsBounds(files: seq<File>, r: Record, maxBytes: nat, fileCount: nat)
    requires files != [] && files[0].Size() + |r.bytes| <= maxBytes
    requires Bounded(files, maxBytes, fileCount)
    ensures Bounded(files[0 := File(files[0].records + [r])], maxBytes, fileCount)
  {
    ContentAppend(files[0].records, r);
    var after := files[0 := File(files[0].records + [r])];
    forall i: nat {:trigger Overflows(after, i, maxBytes)} | i + 1 < |after| ensures Overflows(after, i, maxBytes) {
      assert Overflows(files, i, maxBytes);
    }
  }

  lemma WriteKeepsBounds(files: seq<File>, r: Record, maxBytes: nat, fileCount: nat)
    requires 1 <= fileCount && 0 < |r.bytes| <= maxBytes
    requires Bounded(files, maxBytes, fileCount)
    ensures Bounded(Written(files, r, maxBytes, fileCount), maxBytes, fileCount)
  {
    if files == [] {
      RotationKeepsBounds(files, r, 0, maxBytes, fileCount);
      assert [File([r])] + files[..0] == [File([r])];
    } else if files[0].Size() + |r.bytes| > maxBytes {
      RotationKeepsBounds(files, r, if |files| < fileCount then |files| else fileCount - 1, maxBytes, fileCount);
    } else {
      AppendKeepsBounds(files, r, maxBytes, fileCount);
    }
  }

  ghost predicate IsSuffix(a: seq<Record>, b: seq<Record>) {
    |a| <= |b| && a == b[|b| - |a|..]
  }

  lemma {:induction false} RetainedPrefix(files: seq<File>, n: nat)
    requires n <= |files|
    ensures IsSuffix(Retained(files[..n]), Retained(files))
  {
    if n != 0 {
      assert files[..n][1..] == files[1..][..n - 1];
      RetainedPrefix(files[1..], n - 1);
    }
  }

  lemma SuffixStep(kept: seq<Record>, before: seq<Record>, r: Record, after: seq<Record>)
    requires IsSuffix(kept, before) && IsSuffix(after, kept + [r])
    ensures IsSuffix(after, before + [r])
  {
  }

  lemma SuffixSelf(a: seq<Record>)
    ensures IsSuffix(a, a)
  {
    assert a[0..] == a;
  }

  lemma SuffixSnoc(a: seq<Record>, b: seq<Record>, r: Record)
    requires IsSuffix(a, b)
    ensures IsSuffix(a + [r], b + [r])
  {
  }

  lemma RotationDropsOldest(files: seq<File>, r: Record, fileCount: nat)
    requires 1 <= fileCount
    ensures IsSuffix(Retained([File([r])] + Older(files, fileCount)), Retained(files) + [r])
    ensures |files| < fileCount ==> Retained([File([r])] + Older(files, fileCount)) == Retained(files) + [r]
  {
    var n := if |files| < fileCount then |files| else fileCount - 1;
    assert ([File([r])] + files[..n])[1..] == files[..n];
    RetainedPrefix(files, n);
    SuffixSnoc(Retained(files[..n]), Retained(files), r);
    assert |files| < fileCount ==> files[..n] == files;
  }

  lemma AppendRetains(files: seq<File>, r: Record)
    requires files != []
    ensures Retained(files[0 := File(files[0].records + [r])]) == Retained(files) + [r]
  {
    assert files[0 := File(files[0].records + [r])][1..] == files[1..];
    assert Retained(files[1..]) + (files[0].records + [r]) == Retained(files[1..]) + files[0].records + [r];
  }

  /** A write adds its record at the new end and drops records only from the old end. */
  lemma WriteAppends(files: seq<File>, r: Record, maxBytes: nat, fileCount: nat)
    requires 1 <= fileCount
    ensures IsSuffix(Retained(Written(files, r, maxBytes, fileCount)), Retained(files) + [r])
    ensures |files| < fileCount ==> Retained(Written(files, r, maxBytes, fileCount)) == Retained(files) + [r]
  {
    if CurrentSize(files) + |r.bytes| > maxBytes {
      RotationDropsOldest(files, r, fileCount);
    } else if files != [] {
      AppendRetains(files, r);
      SuffixSelf(Retained(files) + [r]);
    } else {
      assert [File([r])][1..] == [];
      SuffixSelf([r]);
    }
  }

  /**
   After any run of successful writes from an empty log: the retained records,
   oldest first, are a suffix of everything written, and all of it until the
   set of files is full; every file fits; two adjacent files together do not.
   */
  lemma {:induction false} RetentionOverAnyRun(history: seq<Record>, maxBytes: nat, fileCount: nat)
    requires 1 <= fileCount && Fit(history, maxBytes)
    ensures
      var files := WrittenAll(history, maxBytes, fileCount);
      && Bounded(files, maxBytes, fileCount)
      && IsSuffix(Retained(files), history)
      && (|files| < fileCount ==> Retained(files) == history)
  {
    hide Bounded, IsSuffix, Retained;
    if history == [] {
      NothingWritten(maxBytes, fileCount);
    } else {
      var before := history[..|history| - 1];
      var r := history[|history| - 1];
      assert before + [r] == history;
      RetentionOverAnyRun(before, maxBytes, fileCount);
      var files := WrittenAll(before, maxBytes, fileCount);
      WriteKeepsBounds(files, r, maxBytes, fileCount);
      WriteAppends(files, r, maxBytes, fileCount);
      SuffixStep(Retained(files), before, r, Retained(Written(files, r, maxBytes, fileCount)));
    }
  }

  lemma NothingWritten(maxBytes: nat, fileCount: nat)
    ensures Bounded([], maxBytes, fileCount) && Retained([]) == [] && IsSuffix([], [])
  {
  }

  /** Multiplication by repeated addition. */
  function Times(n: nat, m: nat): nat {
    if n == 0 then 0 else m + Times(n - 1, m)
  }

  lemma {:induction false} TimesSuccessor(n: nat, m: nat)
    ensures Times(n, m) == n * m
    ensures Times(n, m + 1) == n * m + n
  {
    if n > 0 { TimesSuccessor(n - 1, m); }
  }

  /** Adjacent files overflow in pairs, so `n` files hold more than n / 2 full ones. */
  lemma {:induction false} PairsOverflow(files: seq<File>, maxBytes: nat, fileCount: nat)
    requires Bounded(files, maxBytes, fileCount)
    ensures Total(files) >= Times(|files| / 2, maxBytes + 1)
  {
    if |files| >= 2 {
      var rest := files[2..];
      forall i: nat {:trigger Overflows(rest, i, maxBytes)} | i + 1 < |rest| ensures Overflows(rest, i, maxBytes) {
        assert Overflows(files, i + 2, maxBytes);
      }
      PairsOverflow(rest, maxBytes, fileCount);
      assert Overflows(files, 0, maxBytes);
      assert files[1..][1..] == rest;
    }
  }

  /** A single file keeps the record written last. */
  lemma SingleFileKeeps(history: seq<Record>, maxBytes: nat)
    requires Fit(history, maxBytes) && |WrittenAll(history, maxBytes, 1)| == 1
    ensures Total(WrittenAll(history, maxBytes, 1)) > 0
  {
    RetentionOverAnyRun(history, maxBytes, 1);
    var f := WrittenAll(history, maxBytes, 1)[0];
    assert WrittenAll(history, maxBytes, 1) == [f];
    assert [f][1..] == [];
    assert Retained([f]) == f.records;
    assert f.records[|f.records| - 1] == history[|history| - 1];
  }

  /** A full set keeps more than floor(fileCount / 2) * maxBytes bytes. */
  lemma FullSetKeeps(history: seq<Record>, maxBytes: nat, fileCount: nat)
    requires 1 <= fileCount && Fit(history, maxBytes)
    requires |WrittenAll(history, maxBytes, fileCount)| == fileCount
    ensures Total(WrittenAll(history, maxBytes, fileCount)) > (fileCount / 2) * maxBytes
  {
    if fileCount == 1 {
      SingleFileKeeps(history, maxBytes);
    } else {
      RetentionOverAnyRun(history, maxBytes, fileCount);
      PairsOverflow(WrittenAll(history, maxBytes, fileCount), maxBytes, fileCount);
      TimesSuccessor(fileCount / 2, maxBytes);
    }
  }

  // ---------------------------------------------------------------------------
  // Recovering an oversized file
  // ---------------------------------------------------------------------------

  /** A cut at `at` does not split a newline-terminated record. */
  predicate Aligned(content: Bytes, at: int) {
    0 <= at <= |content| && (at == 0 || content[at - 1] == NEWLINE)
  }

  /**
   A file that fits is kept; of an oversized one, the longest record-aligned
   suffix shorter than the limit.
   */
  ghost predicate Trimmed(content: Bytes, kept: Bytes, limit: nat) {
    if |content| <= limit then kept == content
    else
      && |kept| <= |content| && kept == content[|content| - |kept|..]
      && (kept == [] || (|kept| < limit && Aligned(content, |content| - |kept|)))
      && (forall at :: Aligned(content, at) && |content| - at < limit ==> |content| - at <= |kept|)
  }

  /**
   boundExisting on the bytes of one file: an oversized file keeps its longest
   record-aligned suffix SHORTER than the limit, read back from a bounded tail.
   */
  method BoundExisting(content: Bytes, limit: nat) returns (kept: Bytes)
    ensures Trimmed(content, kept, limit)
  {
    if |content| <= limit {
      return content;
    }
    var from := |content| - limit;
    var tail := content[from..];
    var newline := 0;
    while newline < |tail| && tail[newline] != NEWLINE
      invariant 0 <= newline <= |tail|
      invariant forall k :: 0 <= k < newline ==> tail[k] != NEWLINE
    {
      newline := newline + 1;
    }
    if newline == |tail| {
      kept := [];
    } else {
      kept := tail[newline + 1..];
    }
    forall at | Aligned(content, at) && |content| - at < limit ensures |content| - at <= |kept| {
      assert content[at - 1] == tail[at - 1 - from];
    }
  }

  predicate IsRecord(r: Record) {
    r.bytes != [] && r.bytes[|r.bytes| - 1] == NEWLINE && NEWLINE !in r.bytes[..|r.bytes| - 1]
  }

  /** In a file of whole records, an aligned cut falls between two records. */
  lemma {:induction false} AlignedCutKeepsRecords(records: seq<Record>, at: nat)
    requires forall r <- records :: IsRecord(r)
    requires Aligned(Content(records), at)
    ensures exists k :: 0 <= k <= |records| && Content(records[..k]) == Content(records)[..at]
  {
    var all := Content(records);
    if at == |all| {
      assert records[..|records|] == records && all[..at] == all;
    } else {
      var init, r := records[..|records| - 1], records[|records| - 1];
      assert IsRecord(r);
      if at > |Content(init)| {
        assert false;
      } else {
        assert all[..at] == Content(init)[..at];
        assert at != 0 ==> Content(init)[at - 1] == all[at - 1];
        AlignedCutKeepsRecords(init, at);
        var k :| 0 <= k <= |init| && Content(init[..k]) == Content(init)[..at];
        assert records[..k] == init[..k];
      }
    }
  }

  // ---------------------------------------------------------------------------
  // The writer
  // ---------------------------------------------------------------------------

  /** The redacted line on one row: carriage returns and newlines become spaces. */
  function OneRow(line: Bytes): (row: Bytes)
    ensures |row| == |line| && NEWLINE !in row && RETURN !in row
    ensures forall i :: 0 <= i < |line| && line[i] != NEWLINE && line[i] != RETURN ==> row[i] == line[i]
  {
    if line == [] then []
    else [if line[0] == NEWLINE || line[0] == RETURN then SPACE else line[0]] + OneRow(line[1..])
  }

  /** The record of one line, or the record that replaces an oversized line. */
  function RecordOf(prefix: Bytes, line: Bytes, omitted: Bytes, maxBytes: nat): Record {
    var record := prefix + OneRow(line) + [NEWLINE];
    Record(if |record| > maxBytes then prefix + omitted + [NEWLINE] else record)
  }

  /** The file map after a rotation: every file of the set one place older, the oldest gone. */
  ghost predicate Rotated(before: map<nat, Bytes>, after: map<nat, Bytes>, fileCount: nat) {
    && 0 !in after
    && (forall i: nat :: 1 <= i < fileCount ==> (i in after <==> i - 1 in before))
    && (forall i: nat :: 1 <= i < fileCount && i in after ==> after[i] == before[i - 1])
    && (forall i: nat :: i >= fileCount ==> (i in after <==> i in before))
    && (forall i: nat :: i >= fileCount && i in after ==> after[i] == before[i])
  }

  function Held(files: map<nat, Bytes>, i: int): Option<Bytes> {
    if i >= 0 && i in files then Some(files[i]) else None
  }

  /** Midway: the files above `index` have moved up, and the one just above it is free. */
  ghost predicate Shifting(before: map<nat, Bytes>, now: map<nat, Bytes>, index: int, fileCount: nat) {
    && (forall i: nat :: i <= index || i >= fileCount ==> Held(now, i) == Held(before, i))
    && (forall i: nat :: index + 1 == i < fileCount ==> Held(now, i) == None)
    && (forall i: nat :: index + 1 < i < fileCount ==> Held(now, i) == Held(before, i - 1))
  }

  lemma ShiftStarts(before: map<nat, Bytes>, fileCount: nat)
    requires 1 <= fileCount
    ensures Shifting(before, before - {fileCount - 1}, fileCount - 2, fileCount)
  {
  }

  lemma ShiftStep(before: map<nat, Bytes>, now: map<nat, Bytes>, index: nat, fileCount: nat)
    requires Shifting(before, now, index, fileCount) && index + 1 < fileCount
    ensures
      var next := if index in now then now[index + 1 := now[index]] - {index} else now;
      Shifting(before, next, index - 1, fileCount)
  {
    var next := if index in now then now[index + 1 := now[index]] - {index} else now;
    assert Held(now, index) == Held(before, index) && Held(now, index + 1) == None;
    assert Held(next, index) == None && Held(next, index + 1) == Held(now, index);
    assert forall i: nat :: i != index && i != index + 1 ==> Held(next, i) == Held(now, i);
    forall i: nat | index < i < fileCount ensures Held(next, i) == Held(before, i - 1) {
      if i > index + 1 { assert Held(next, i) == Held(now, i); }
    }
  }

  lemma ShiftEnds(before: map<nat, Bytes>, now: map<nat, Bytes>, fileCount: nat)
    requires 1 <= fileCount && Shifting(before, now, -1, fileCount)
    ensures Rotated(before, now, fileCount)
  {
    assert Held(now, 0) == None;
    forall i: nat | 1 <= i < fileCount
      ensures i in now <==> i - 1 in before
      ensures i in now ==> now[i] == before[i - 1]
    {
      assert Held(now, i) == Held(before, i - 1);
    }
    forall i: nat | i >= fileCount
      ensures i in now <==> i in before
      ensures i in now ==> now[i] == before[i]
    {
      assert Held(now, i) == Held(before, i);
    }
  }

  /** The files on disk hold the bytes of the specified files, and there are no others. */
  ghost predicate Represents(files: map<nat, Bytes>, spec: seq<File>) {
    && (forall i: nat :: i in files <==> i < |spec|)
    && (forall i: nat :: i < |spec| ==> files[i] == Content(spec[i].records))
  }

  lemma SingleContent(r: Record)
    ensures Content([r]) == [] + r.bytes
  {
    ContentAppend([], r);
    assert [] + [r] == [r];
  }

  /** After a rotation the new record starts a file of its own. */
  lemma StoreRotated(before: map<nat, Bytes>, rotated: map<nat, Bytes>, spec: seq<File>, r: Record, fileCount: nat)
    requires 1 <= fileCount && |spec| <= fileCount
    requires Represents(before, spec) && Rotated(before, rotated, fileCount)
    ensures Represents(rotated[0 := [] + r.bytes], [File([r])] + Older(spec, fileCount))
  {
    hide Content;
    SingleContent(r);
    var after := [File([r])] + Older(spec, fileCount);
    forall i: nat | 0 < i < |after| ensures i in rotated && rotated[i] == Content(after[i].records) {
      assert after[i] == spec[i - 1];
    }
  }

  /** Without one it extends the current file, */
  lemma StoreAppended(before: map<nat, Bytes>, spec: seq<File>, r: Record)
    requires Represents(before, spec) && spec != []
    ensures Represents(before[0 := before[0] + r.bytes], spec[0 := File(spec[0].records + [r])])
  {
    hide Content;
    ContentAppend(spec[0].records, r);
    var after := spec[0 := File(spec[0].records + [r])];
    forall i: nat | 0 < i < |after| ensures before[i] == Content(after[i].records) {
      assert after[i] == spec[i];
    }
  }

  /** or creates it. */
  lemma StoreFirst(before: map<nat, Bytes>, r: Record)
    requires Represents(before, [])
    ensures Represents(before[0 := [] + r.bytes], [File([r])])
  {
    ContentAppend([], r);
    assert [] + [r] == [r];
  }

  // ---------------------------------------------------------------------------
  // Writing into a directory that already holds files
  // ---------------------------------------------------------------------------

  function Current(files: map<nat, Bytes>): Bytes {
    if 0 in files then files[0] else []
  }

  function ShiftedKeys(files: map<nat, Bytes>, fileCount: nat): set<nat> {
    (set i | i in files && i >= fileCount) + (set i | i in files && i + 1 < fileCount :: i + 1)
  }

  lemma ShiftedKey(files: map<nat, Bytes>, fileCount: nat, i: nat)
    ensures i in ShiftedKeys(files, fileCount) <==> if i >= fileCount then i in files else i > 0 && i - 1 in files
  {
  }

  /** The rotation as a function: the files outside the set stay, those inside move up. */
  function Shifted(files: map<nat, Bytes>, fileCount: nat): map<nat, Bytes> {
    map i | i in ShiftedKeys(files, fileCount) :: if i >= fileCount then files[i] else files[i - 1]
  }

  lemma ShiftedHolds(files: map<nat, Bytes>, fileCount: nat, i: nat)
    requires 1 <= fileCount
    ensures Held(Shifted(files, fileCount), i) ==
      if i >= fileCount then Held(files, i) else if i == 0 then None else Held(files, i - 1)
  {
    ShiftedKey(files, fileCount, i);
  }

  lemma SameFiles(a: map<nat, Bytes>, b: map<nat, Bytes>)
    requires forall i: nat :: Held(a, i) == Held(b, i)
    ensures a == b
  {
    forall i: nat
      ensures i in a <==> i in b
      ensures i in a && i in b ==> a[i] == b[i]
    {
      assert Held(a, i) == Held(b, i);
    }
  }

  lemma RotatedIsShifted(before: map<nat, Bytes>, after: map<nat, Bytes>, fileCount: nat)
    requires 1 <= fileCount && Rotated(before, after, fileCount)
    ensures after == Shifted(before, fileCount)
  {
    hide Shifted;
    forall i: nat ensures Held(after, i) == Held(Shifted(before, fileCount), i) {
      ShiftedHolds(before, fileCount, i);
    }
    SameFiles(after, Shifted(before, fileCount));
  }

  lemma ShiftedIsRotated(before: map<nat, Bytes>, fileCount: nat)
    requires 1 <= fileCount
    ensures Rotated(before, Shifted(before, fileCount), fileCount)
  {
    hide Shifted;
    var after := Shifted(before, fileCount);
    ShiftedHolds(before, fileCount, 0);
    forall i: nat | 1 <= i < fileCount
      ensures i in after <==> i - 1 in before
      ensures i in after ==> after[i] == before[i - 1]
    {
      ShiftedHolds(before, fileCount, i);
      assert Held(after, i) == Held(before, i - 1);
    }
    forall i: nat | i >= fileCount
      ensures i in after <==> i in before
      ensures i in after ==> after[i] == before[i]
    {
      ShiftedHolds(before, fileCount, i);
      assert Held(after, i) == Held(before, i);
    }
  }

  /** One record written to any files. */
  function Stored(files: map<nat, Bytes>, r: Record, maxBytes: nat, fileCount: nat): map<nat, Bytes> {
    if |Current(files)| + |r.bytes| > maxBytes then Shifted(files, fileCount)[0 := [] + r.bytes]
    else files[0 := Current(files) + r.bytes]
  }

  function StoredAll(start: map<nat, Bytes>, history: seq<Record>, maxBytes: nat, fileCount: nat): map<nat, Bytes> {
    if history == [] then start
    else
      var before := StoredAll(start, history[..|history| - 1], maxBytes, fileCount);
      Stored(before, history[|history| - 1], maxBytes, fileCount)
  }

  /** On files of whole records a write is the specified write. */
  lemma StoredRepresents(files: map<nat, Bytes>, spec: seq<File>, r: Record, maxBytes: nat, fileCount: nat)
    requires 1 <= fileCount && |spec| <= fileCount && Represents(files, spec)
    ensures Represents(Stored(files, r, maxBytes, fileCount), Written(spec, r, maxBytes, fileCount))
  {
    hide Represents, Shifted;
    CurrentIs(files, spec);
    if |Current(files)| + |r.bytes| > maxBytes {
      ShiftedIsRotated(files, fileCount);
      StoreRotated(files, Shifted(files, fileCount), spec, r, fileCount);
    } else if spec == [] {
      StoreFirst(files, r);
    } else {
      StoreAppended(files, spec, r);
    }
  }

  lemma CurrentIs(files: map<nat, Bytes>, spec: seq<File>)
    requires Represents(files, spec)
    ensures |Current(files)| == CurrentSize(spec) && (0 in files <==> spec != [])
    ensures spec == [] ==> Current(files) == []
  {
  }

  /** In an empty directory the files are those of the specification. */
  lemma {:induction false} EmptyStartIsWritten(history: seq<Record>, maxBytes: nat, fileCount: nat)
    requires 1 <= fileCount && Fit(history, maxBytes)
    ensures Represents(StoredAll(map[], history, maxBytes, fileCount), WrittenAll(history, maxBytes, fileCount))
  {
    hide Stored, Written, Bounded, IsSuffix, Retained;
    if history == [] {
      assert Represents(map[], []);
    } else {
      var before, r := history[..|history| - 1], history[|history| - 1];
      EmptyStartIsWritten(before, maxBytes, fileCount);
      WrittenWithin(before, maxBytes, fileCount);
      StoredRepresents(
        StoredAll(map[], before, maxBytes, fileCount), WrittenAll(before, maxBytes, fileCount), r, maxBytes, fileCount);
    }
  }

  lemma WrittenWithin(history: seq<Record>, maxBytes: nat, fileCount: nat)
    requires 1 <= fileCount && Fit(history, maxBytes)
    ensures |WrittenAll(history, maxBytes, fileCount)| <= fileCount
  {
    RetentionOverAnyRun(history, maxBytes, fileCount);
  }

  lemma StoredSnoc(start: map<nat, Bytes>, history: seq<Record>, r: Record, maxBytes: nat, fileCount: nat)
    ensures StoredAll(start, history + [r], maxBytes, fileCount)
         == Stored(StoredAll(start, history, maxBytes, fileCount), r, maxBytes, fileCount)
  {
    assert (history + [r])[..|history|] == history;
  }

  /** Every file of the set is within the limit. */
  ghost predicate SetFits(files: map<nat, Bytes>, maxBytes: nat, fileCount: nat) {
    forall i: nat :: i in files && i < fileCount ==> |files[i]| <= maxBytes
  }

  /** The bytes of files n - 1 to 0, oldest first. */
  function Flat(files: map<nat, Bytes>, n: nat): Bytes {
    if n == 0 then [] else (if n - 1 in files then files[n - 1] else []) + Flat(files, n - 1)
  }

  ghost predicate IsTail(a: Bytes, b: Bytes) {
    |a| <= |b| && a == b[|b| - |a|..]
  }

  lemma {:induction false} FlatAppend(files: map<nat, Bytes>, bytes: Bytes, n: nat)
    requires 1 <= n
    ensures Flat(files[0 := Current(files) + bytes], n) == Flat(files, n) + bytes
  {
    if n == 1 {
      assert Flat(files, 0) == [] && Flat(files[0 := Current(files) + bytes], 0) == [];
    } else {
      FlatAppend(files, bytes, n - 1);
    }
  }

  lemma {:induction false} FlatRotate(files: map<nat, Bytes>, bytes: Bytes, n: nat, fileCount: nat)
    requires 1 <= n <= fileCount
    ensures Flat(Shifted(files, fileCount)[0 := [] + bytes], n) == Flat(files, n - 1) + bytes
  {
    hide Shifted;
    var after := Shifted(files, fileCount)[0 := [] + bytes];
    if n == 1 {
      assert Flat(after, 0) == [];
    } else {
      FlatRotate(files, bytes, n - 1, fileCount);
      ShiftedHolds(files, fileCount, n - 1);
      assert Held(after, n - 1) == Held(files, n - 2);
    }
  }

  lemma StoredFlat(files: map<nat, Bytes>, r: Record, maxBytes: nat, fileCount: nat)
    requires 1 <= fileCount
    ensures IsTail(Flat(Stored(files, r, maxBytes, fileCount), fileCount), Flat(files, fileCount) + r.bytes)
  {
    hide Shifted, Flat, Current, IsTail;
    if |Current(files)| + |r.bytes| > maxBytes {
      FlatRotate(files, r.bytes, fileCount, fileCount);
      FlatDrops(files, r.bytes, fileCount);
    } else {
      FlatAppend(files, r.bytes, fileCount);
      TailSelf(Flat(files, fileCount) + r.bytes);
    }
  }

  lemma TailSelf(a: Bytes)
    ensures IsTail(a, a)
  {
  }

  /** Without its oldest file the set holds the end of what it held. */
  lemma FlatDrops(files: map<nat, Bytes>, bytes: Bytes, n: nat)
    requires 1 <= n
    ensures IsTail(Flat(files, n - 1) + bytes, Flat(files, n) + bytes)
  {
    var rest := Flat(files, n - 1);
    var oldest := if n - 1 in files then files[n - 1] else [];
    assert Flat(files, n) == oldest + rest;
    hide Flat;
    assert (oldest + rest + bytes)[|oldest|..] == rest + bytes;
  }

  lemma StoredFits(files: map<nat, Bytes>, r: Record, maxBytes: nat, fileCount: nat)
    requires 1 <= fileCount && SetFits(files, maxBytes, fileCount) && |r.bytes| <= maxBytes
    ensures SetFits(Stored(files, r, maxBytes, fileCount), maxBytes, fileCount)
    ensures forall i: nat :: i >= fileCount ==> Held(Stored(files, r, maxBytes, fileCount), i) == Held(files, i)
    ensures IsTail(r.bytes, Current(Stored(files, r, maxBytes, fileCount)))
  {
    hide Shifted;
    var after := Stored(files, r, maxBytes, fileCount);
    forall i: nat
      ensures i in after && i < fileCount ==> |after[i]| <= maxBytes
      ensures i >= fileCount ==> Held(after, i) == Held(files, i)
    {
      ShiftedHolds(files, fileCount, i);
      assert i > 0 ==> Held(after, i) == Held(files, i) || Held(after, i) == Held(files, i - 1);
    }
  }

  lemma TailStep(a: Bytes, b: Bytes, c: Bytes, r: Bytes)
    requires IsTail(a, b + r) && IsTail(b, c)
    ensures IsTail(a, c + r)
  {
  }

  lemma NothingAdded(a: Bytes)
    ensures IsTail(a, a + Content([]))
  {
    assert a + Content([]) == a && a[0..] == a;
  }

  lemma OneMore(a: Bytes, history: seq<Record>)
    requires history != []
    ensures a + Content(history) == a + Content(history[..|history| - 1]) + history[|history| - 1].bytes
  {
    hide Content;
    ContentLast(history);
    Rejoined(a, Content(history[..|history| - 1]), history[|history| - 1].bytes);
  }

  lemma ContentLast(history: seq<Record>)
    requires history != []
    ensures Content(history) == Content(history[..|history| - 1]) + history[|history| - 1].bytes
  {
    hide SizeOf;
  }

  lemma Rejoined(a: Bytes, b: Bytes, c: Bytes)
    ensures a + (b + c) == a + b + c
  {
  }

  /**
   After any writes into a directory whose set of files is trimmed: every file of the
   set is within the limit, the others are untouched, what the set holds is the end of
   what it held followed by everything written, and the last record ends the current file.
   */
  lemma {:induction false} AnyStartKeeps(start: map<nat, Bytes>, history: seq<Record>, maxBytes: nat, fileCount: nat)
    requires 1 <= fileCount && SetFits(start, maxBytes, fileCount) && Fit(history, maxBytes)
    ensures
      var files := StoredAll(start, history, maxBytes, fileCount);
      && SetFits(files, maxBytes, fileCount)
      && (forall i: nat :: i >= fileCount ==> Held(files, i) == Held(start, i))
      && IsTail(Flat(files, fileCount), Flat(start, fileCount) + Content(history))
      && (history != [] ==> IsTail(history[|history| - 1].bytes, Current(files)))
  {
    hide Stored, SetFits, Flat, Held, IsTail, Content, Current;
    if history == [] {
      NothingAdded(Flat(start, fileCount));
    } else {
      var before, r := history[..|history| - 1], history[|history| - 1];
      AnyStartKeeps(start, before, maxBytes, fileCount);
      var files := StoredAll(start, before, maxBytes, fileCount);
      StoredFits(files, r, maxBytes, fileCount);
      StoredFlat(files, r, maxBytes, fileCount);
      TailStep(Flat(Stored(files, r, maxBytes, fileCount), fileCount), Flat(files, fileCount),
               Flat(start, fileCount) + Content(before), r.bytes);
      OneMore(Flat(start, fileCount), history);
    }
  }

  /** The set trimmed, the other files untouched. */
  ghost predicate TrimmedSet(before: map<nat, Bytes>, after: map<nat, Bytes>, maxBytes: nat, fileCount: nat) {
    && after.Keys == before.Keys
    && (forall i: nat :: i in after && i < fileCount ==> Trimmed(before[i], after[i], maxBytes))
    && (forall i: nat :: i in after && i >= fileCount ==> after[i] == before[i])
  }

  /** A trimmed file is within the limit, and there is only one way to trim. */
  lemma TrimmedOnce(content: Bytes, a: Bytes, b: Bytes, limit: nat)
    requires Trimmed(content, a, limit) && Trimmed(content, b, limit)
    ensures a == b && |a| <= limit
  {
    assert a != [] && |content| > limit ==> |a| <= |b|;
    assert b != [] && |content| > limit ==> |b| <= |a|;
  }

  lemma TrimmedSetFits(before: map<nat, Bytes>, after: map<nat, Bytes>, maxBytes: nat, fileCount: nat)
    requires TrimmedSet(before, after, maxBytes, fileCount)
    ensures SetFits(after, maxBytes, fileCount)
  {
    hide Trimmed;
    forall i: nat | i in after && i < fileCount ensures |after[i]| <= maxBytes {
      TrimmedOnce(before[i], after[i], after[i], maxBytes);
    }
  }

  class DiagnosticLog {
    const maxBytes: nat
    const fileCount: nat
    const redact: Bytes -> Bytes
    const omitted: Bytes
    var files: map<nat, Bytes>
    var normalized: bool
    ghost var start: map<nat, Bytes>
    ghost var history: seq<Record>

    /** The files are those found, trimmed by the first write, with the records written since. */
    ghost predicate Valid()
      reads this
    {
      && 128 <= maxBytes && 1 <= fileCount
      && Fit(history, maxBytes)
      && (normalized ==> SetFits(start, maxBytes, fileCount))
      && (!normalized ==> history == [])
      && files == StoredAll(start, history, maxBytes, fileCount)
    }

    /** The sink opens on whatever files are there. */
    constructor (found: map<nat, Bytes>, maxBytes: nat, fileCount: nat, redact: Bytes -> Bytes, omitted: Bytes)
      requires 128 <= maxBytes && 1 <= fileCount
      ensures Valid() && !normalized && history == [] && files == start == found
      ensures this.maxBytes == maxBytes && this.fileCount == fileCount
      ensures this.redact == redact && this.omitted == omitted
    {
      this.maxBytes, this.fileCount, this.redact, this.omitted := maxBytes, fileCount, redact, omitted;
      files, start, normalized, history := found, found, false, [];
    }

    /** rotate: unlink the oldest file, then rename every other one upwards, oldest first. */
    method Rotate()
      requires 1 <= fileCount
      modifies `files
      ensures Rotated(old(files), files, fileCount)
    {
      hide Shifting, Rotated;
      files := files - {fileCount - 1};
      var index := fileCount - 2;
      ShiftStarts(old(files), fileCount);
      while index >= 0
        invariant -1 <= index <= fileCount - 2
        invariant Shifting(old(files), files, index, fileCount)
      {
        ShiftStep(old(files), files, index, fileCount);
        if index in files {
          files := files[index + 1 := files[index]] - {index};
        }
        index := index - 1;
      }
      ShiftEnds(old(files), files, fileCount);
    }

    /** The first write trims every file of the set. */
    method Normalize()
      modifies `files, `normalized
      ensures normalized && TrimmedSet(old(files), files, maxBytes, fileCount)
    {
      hide Trimmed;
      var index := 0;
      while index < fileCount
        invariant 0 <= index <= fileCount && files.Keys == old(files).Keys
        invariant forall i: nat :: i in files && i < index ==> Trimmed(old(files)[i], files[i], maxBytes)
        invariant forall i: nat :: i in files && i >= index ==> files[i] == old(files)[i]
      {
        if index in files {
          var kept := BoundExisting(files[index], maxBytes);
          files := files[index := kept];
        }
        index := index + 1;
      }
      normalized := true;
    }

    /** The file operations of one write: rotate if the record would not fit, then append. */
    method Store(record: Record)
      requires 1 <= fileCount
      modifies `files
      ensures files == Stored(old(files), record, maxBytes, fileCount)
    {
      hide Rotated, Shifted;
      var bytes := if 0 in files then |files[0]| else 0;
      if bytes + |record.bytes| > maxBytes {
        Rotate();
        RotatedIsShifted(old(files), files, fileCount);
        ShiftedHolds(old(files), fileCount, 0);
      }
      var current := if 0 in files then files[0] else [];
      files := files[0 := current + record.bytes];
    }

    /**
     One write: under the lock the first one trims the set, and the record is stored if
     it fits. Without the lock nothing changes.
     */
    method Write(prefix: Bytes, line: Bytes, locked: bool) returns (ok: bool)
      requires Valid()
      modifies `files, `normalized, `start, `history
      ensures Valid()
      ensures var r := RecordOf(prefix, redact(line), omitted, maxBytes); ok == (locked && |r.bytes| <= maxBytes)
      ensures history == old(history) + if ok then [RecordOf(prefix, redact(line), omitted, maxBytes)] else []
      ensures !locked ==> files == old(files) && start == old(start) && normalized == old(normalized)
      ensures locked ==> normalized
      ensures locked && old(normalized) ==> start == old(start)
      ensures locked && !old(normalized) ==> TrimmedSet(old(files), start, maxBytes, fileCount)
    {
      hide Stored, TrimmedSet, SetFits;
      if !locked {
        return false;
      }
      if !normalized {
        Normalize();
        start := files;
        TrimmedSetFits(old(files), files, maxBytes, fileCount);
      }
      var record := RecordOf(prefix, redact(line), omitted, maxBytes);
      if |record.bytes| > maxBytes {
        return false;
      }
      StoredSnoc(start, history, record, maxBytes, fileCount);
      Store(record);
      history := history + [record];
      return true;
    }
  }

  // ---------------------------------------------------------------------------
  // Records and totals
  // ---------------------------------------------------------------------------

  lemma {:induction false} SizeAppend(a: seq<Record>, b: seq<Record>)
    ensures SizeOf(a + b) == SizeOf(a) + SizeOf(b)
  {
    if b == [] {
      assert a + b == a;
    } else {
      assert (a + b)[..|a + b| - 1] == a + b[..|b| - 1];
      SizeAppend(a, b[..|b| - 1]);
    }
  }

  /** The bytes of a set of files are those of the records it retains. */
  lemma {:induction false} TotalIs(files: seq<File>)
    ensures Total(files) == |Content(Retained(files))|
  {
    if files != [] {
      TotalIs(files[1..]);
      SizeAppend(Retained(files[1..]), files[0].records);
    }
  }

  /** A line is written on one row behind its prefix, and replaced exactly when that does not fit a file. */
  lemma RecordIs(prefix: Bytes, line: Bytes, omitted: Bytes, maxBytes: nat)
    ensures |prefix| + |line| + 1 <= maxBytes ==>
      RecordOf(prefix, line, omitted, maxBytes).bytes == prefix + OneRow(line) + [NEWLINE]
    ensures |prefix| + |line| + 1 > maxBytes ==>
      RecordOf(prefix, line, omitted, maxBytes).bytes == prefix + omitted + [NEWLINE]
  {
  }

  /** Either way it is one record: its only newline ends it. */
  lemma RecordIsOneLine(prefix: Bytes, line: Bytes, omitted: Bytes, maxBytes: nat)
    requires NEWLINE !in prefix && NEWLINE !in omitted
    ensures
      var bytes := RecordOf(prefix, line, omitted, maxBytes).bytes;
      bytes != [] && forall i :: 0 <= i < |bytes| ==> (bytes[i] == NEWLINE <==> i == |bytes| - 1)
    ensures IsRecord(RecordOf(prefix, line, omitted, maxBytes))
  {
  }
}
