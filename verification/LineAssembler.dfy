/**
 The incremental line assembler of the diagnostic log: writes arrive in
 arbitrary chunks, and the emitted lines must not depend on where the chunks
 were cut.

 The one-shot specification splits the whole text at its newlines, replaces
 each oversized line, strips a carriage return and folds the quoted-credential
 suppression over the lines. The class keeps three variables and never more
 than `maxBytes` bytes of pending text.
 */
module LineAssembler {
  import opened Wrappers

  /**
   The byte budget of a line, the pattern that finds a credential whose quote
   stays open, and the three replacement texts. Nothing below depends on what
   the pattern matches or on what the texts say.
   */
  datatype Policy = Policy(
    maxBytes: nat, opens: string -> Option<char>, oversized: string, omitted: string, continued: string)

  // ---------------------------------------------------------------------------
  // Text
  // ---------------------------------------------------------------------------

  /** The length of one code point in UTF-8. */
  function Utf8(c: char): nat {
    var n := c as int;
    if n < 0x80 then 1 else if n < 0x800 then 2 else if n < 0x1_0000 then 3 else 4
  }

  function Bytes(s: string): nat {
    if s == [] then 0 else Bytes(s[..|s| - 1]) + Utf8(s[|s| - 1])
  }

  lemma {:induction false} BytesConcat(a: string, b: string)
    ensures Bytes(a + b) == Bytes(a) + Bytes(b)
  {
    if b == [] {
      assert a + b == a;
    } else {
      var init := b[..|b| - 1];
      assert (a + b)[..|a + b| - 1] == a + init;
      BytesConcat(a, init);
    }
  }

  lemma NewlineBytes()
    ensures Bytes("\n") == 1 && Bytes("") == 0
  {
    assert "\n"[..0] == "";
  }

  /** The lines closed by a newline, without it, in order. */
  function Complete(t: string): seq<string> {
    if t == [] then []
    else
      var init := t[..|t| - 1];
      if t[|t| - 1] == '\n' then Complete(init) + [Tail(init)] else Complete(init)
  }

  /** What follows the last newline. */
  function Tail(t: string): string {
    if t == [] || t[|t| - 1] == '\n' then "" else Tail(t[..|t| - 1]) + [t[|t| - 1]]
  }

  function Terminated(lines: seq<string>): string {
    if lines == [] then "" else Terminated(lines[..|lines| - 1]) + lines[|lines| - 1] + "\n"
  }

  /**
   Complete and Tail are the split of a text at its newlines: joining gives the
   text back, and no piece holds a newline.
   */
  lemma {:induction false} SplitAtNewlines(t: string)
    ensures Terminated(Complete(t)) + Tail(t) == t
    ensures '\n' !in Tail(t)
    ensures forall line <- Complete(t) :: '\n' !in line
  {
    if t != [] {
      SplitAtNewlines(t[..|t| - 1]);
    }
  }

  /** A newline closes whatever was pending; text without one only extends it. */
  lemma {:induction false} SplitAppend(a: string, b: string)
    ensures Complete(a + b) == Complete(a) + Complete(Tail(a) + b)
    ensures Tail(a + b) == Tail(Tail(a) + b)
  {
    if b == [] {
      assert a + b == a && Tail(a) + b == Tail(a);
      NoNewline(Tail(a), a);
    } else {
      var init := b[..|b| - 1];
      assert (a + b)[..|a + b| - 1] == a + init;
      assert (Tail(a) + b)[..|Tail(a) + b| - 1] == Tail(a) + init;
      SplitAppend(a, init);
    }
  }

  lemma NoNewline(tail: string, t: string)
    requires tail == Tail(t)
    ensures Complete(tail) == [] && Tail(tail) == tail
  {
    SplitAtNewlines(t);
    Unbroken(tail);
  }

  lemma {:induction false} Unbroken(t: string)
    requires '\n' !in t
    ensures Complete(t) == [] && Tail(t) == t
  {
    if t != [] {
      Unbroken(t[..|t| - 1]);
    }
  }

  // ---------------------------------------------------------------------------
  // The one-shot specification
  // ---------------------------------------------------------------------------

  function StripReturn(line: string): string {
    if line != [] && line[|line| - 1] == '\r' then line[..|line| - 1] else line
  }

  /** A closed line: its newline counts against the budget. */
  function Closed(line: string, policy: Policy): string {
    if Bytes(line) + 1 > policy.maxBytes then policy.oversized else StripReturn(line)
  }

  function ClosedAll(lines: seq<string>, policy: Policy): seq<string> {
    seq(|lines|, i requires 0 <= i < |lines| => Closed(lines[i], policy))
  }

  /** The line a flush closes without a newline: nothing is stripped from it. */
  function Unclosed(tail: string, policy: Policy): seq<string> {
    if tail == "" then [] else if Bytes(tail) > policy.maxBytes then [policy.oversized] else [tail]
  }

  /** The quote still open after these lines. */
  function QuoteAfter(lines: seq<string>, policy: Policy): Option<char> {
    if lines == [] then None
    else
      var line := lines[|lines| - 1];
      match QuoteAfter(lines[..|lines| - 1], policy)
      case Some(q) => if q in line then None else Some(q)
      case None => policy.opens(line)
  }

  /** Every line is emitted as it is, or replaced while a quoted credential is open. */
  function Suppressed(lines: seq<string>, policy: Policy): seq<string> {
    if lines == [] then []
    else
      var init, line := lines[..|lines| - 1], lines[|lines| - 1];
      Suppressed(init, policy) +
      [if QuoteAfter(init, policy).Some? then policy.continued
       else if policy.opens(line).Some? then policy.omitted
       else line]
  }

  /** What one write of the whole text and one flush must emit. */
  function OneShot(text: string, policy: Policy): seq<string> {
    Suppressed(ClosedAll(Complete(text), policy) + Unclosed(Tail(text), policy), policy)
  }

  /**
   What single lines without credentials come out as: a closed line that fits is emitted
   without its newline and one carriage return before it, one that does not is replaced,
   and a line that a flush closes is emitted as it is.
   */
  lemma SingleLines(line: string, policy: Policy)
    requires '\n' !in line && policy.opens(line).None? && policy.opens(policy.oversized).None?
    ensures Bytes(line) + 2 <= policy.maxBytes ==> OneShot(line + "\r\n", policy) == [line]
    ensures Bytes(line) + 1 <= policy.maxBytes && (line == "" || line[|line| - 1] != '\r') ==>
      OneShot(line + "\n", policy) == [line]
    ensures Bytes(line) + 1 > policy.maxBytes ==> OneShot(line + "\n", policy) == [policy.oversized]
    ensures line != "" ==> OneShot(line, policy) == [if Bytes(line) <= policy.maxBytes then line else policy.oversized]
  {
    hide StripReturn;
    BytesConcat(line, "\r");
    ReturnBytes();
    StripsOne(line);
    OneClosed(line, policy);
    OneClosed(line + "\r", policy);
    assert line + "\r\n" == (line + "\r") + "\n";
    Unbroken(line);
    OneSuppressed(line, policy);
    OneSuppressed(policy.oversized, policy);
    assert [] + [line] == [line] && [] + [policy.oversized] == [policy.oversized];
  }

  lemma ReturnBytes()
    ensures Bytes("\r") == 1
  {
    assert "\r"[..0] == "";
  }

  lemma StripsOne(line: string)
    ensures StripReturn(line + "\r") == line
    ensures line == "" || line[|line| - 1] != '\r' ==> StripReturn(line) == line
  {
    assert (line + "\r")[..|line|] == line;
  }

  lemma OneClosed(line: string, policy: Policy)
    requires '\n' !in line
    ensures OneShot(line + "\n", policy) == Suppressed([Closed(line, policy)], policy)
  {
    var t := line + "\n";
    assert t[..|t| - 1] == line;
    Unbroken(line);
    assert ClosedAll([line], policy) == [Closed(line, policy)];
  }

  lemma OneSuppressed(line: string, policy: Policy)
    requires policy.opens(line).None?
    ensures Suppressed([line], policy) == [line]
  {
    assert [line][..0] == [];
  }

  function Pow2(n: nat): nat {
    if n == 0 then 1 else 2 * Pow2(n - 1)
  }

  /** A code point takes the fewest bytes that hold it: one holds 7 bits, k of them 5 k + 1 (section 3 of RFC 3629). */
  lemma Utf8IsLeast(c: char)
    ensures 1 <= Utf8(c) <= 4
    ensures c as int < if Utf8(c) == 1 then Pow2(7) else Pow2(5 * Utf8(c) + 1)
    ensures Utf8(c) > 1 ==> c as int >= if Utf8(c) == 2 then Pow2(7) else Pow2(5 * (Utf8(c) - 1) + 1)
  {
    assert Pow2(7) == 0x80;
    assert Pow2(11) == 16 * Pow2(7);
    assert Pow2(16) == 32 * Pow2(11);
    assert Pow2(21) == 32 * Pow2(16);
  }

  // ---------------------------------------------------------------------------
  // Chunks
  // ---------------------------------------------------------------------------

  /** The assembler's history: the lines it finished and the text it holds back. */
  datatype Progress = Progress(lines: seq<string>, tail: string)

  function Consumed(p: Progress, chunk: string, policy: Policy): Progress {
    var t := p.tail + chunk;
    Progress(p.lines + ClosedAll(Complete(t), policy), Tail(t))
  }

  function ConsumedAll(p: Progress, chunks: seq<string>, policy: Policy): Progress
    decreases |chunks|
  {
    if chunks == [] then p else ConsumedAll(Consumed(p, chunks[0], policy), chunks[1..], policy)
  }

  function Joined(chunks: seq<string>): string {
    if chunks == [] then "" else chunks[0] + Joined(chunks[1..])
  }

  lemma ClosedConcat(a: seq<string>, b: seq<string>, policy: Policy)
    ensures ClosedAll(a + b, policy) == ClosedAll(a, policy) + ClosedAll(b, policy)
  {
  }

  /** Two writes are one write of their concatenation. */
  lemma ConsumeTwice(p: Progress, a: string, b: string, policy: Policy)
    ensures Consumed(Consumed(p, a, policy), b, policy) == Consumed(p, a + b, policy)
  {
    var t := p.tail + a;
    assert p.tail + (a + b) == t + b;
    SplitAppend(t, b);
    var rest := Complete(Tail(t) + b);
    ClosedConcat(Complete(t), rest, policy);
    assert p.lines + (ClosedAll(Complete(t), policy) + ClosedAll(rest, policy))
        == p.lines + ClosedAll(Complete(t), policy) + ClosedAll(rest, policy);
  }

  /**
   Chunk independence: however a text is split into writes, the progress is the
   progress of one write of the whole text.
   */
  lemma {:induction false} ChunkIndependence(p: Progress, chunks: seq<string>, policy: Policy)
    requires Tail(p.tail) == p.tail && Complete(p.tail) == []
    ensures ConsumedAll(p, chunks, policy) == Consumed(p, Joined(chunks), policy)
    decreases |chunks|
  {
    if chunks == [] {
      assert p.tail + "" == p.tail;
    } else {
      var q := Consumed(p, chunks[0], policy);
      NoNewline(q.tail, p.tail + chunks[0]);
      ChunkIndependence(q, chunks[1..], policy);
      ConsumeTwice(p, chunks[0], Joined(chunks[1..]), policy);
    }
  }

  // ---------------------------------------------------------------------------
  // The parts of one chunk
  // ---------------------------------------------------------------------------

  /** The position of the first newline, or the length of the text. */
  function NewlineAt(t: string): (i: nat)
    ensures i <= |t| && '\n' !in t[..i]
    ensures i < |t| ==> t[i] == '\n'
  {
    if t == [] || t[0] == '\n' then 0
    else
      var i := 1 + NewlineAt(t[1..]);
      assert t[..i] == [t[0]] + t[1..][..i - 1];
      i
  }

  /** The chunk cut after each newline, as a split on a look-behind does. */
  function Parts(t: string): seq<string> {
    var i := NewlineAt(t);
    if i + 1 >= |t| then [t] else [t[..i + 1]] + Parts(t[i + 1..])
  }

  predicate IsPart(p: string) {
    '\n' !in p[..if p == [] then 0 else |p| - 1]
  }

  predicate AreParts(ps: seq<string>) {
    forall i :: 0 <= i < |ps| ==> IsPart(ps[i])
  }

  lemma {:induction false} PartsOf(t: string)
    ensures Joined(Parts(t)) == t && AreParts(Parts(t))
  {
    hide NewlineAt, IsPart, AreParts;
    var i := NewlineAt(t);
    if i + 1 >= |t| {
      LastPart(t, i);
      OnePart(t);
    } else {
      var first, rest := t[..i + 1], t[i + 1..];
      PartsOf(rest);
      assert first[..i] == t[..i];
      LastPart(first, i);
      MoreParts(first, Parts(rest));
      assert first + rest == t;
    }
  }

  lemma OnePart(t: string)
    requires IsPart(t)
    ensures Joined([t]) == t && AreParts([t])
  {
    hide IsPart;
    assert [t][1..] == [] && t + "" == t;
  }

  lemma MoreParts(first: string, rest: seq<string>)
    requires IsPart(first) && AreParts(rest)
    ensures Joined([first] + rest) == first + Joined(rest) && AreParts([first] + rest)
  {
    hide IsPart;
    assert ([first] + rest)[1..] == rest;
  }

  lemma LastPart(t: string, i: nat)
    requires i <= |t| <= i + 1 && '\n' !in t[..i]
    ensures IsPart(t)
  {
    if t != [] { assert t[..|t| - 1] <= t[..i]; }
  }

  /** Consuming one part closes at most one line. */
  lemma ConsumePart(p: Progress, part: string, policy: Policy)
    requires '\n' !in p.tail && IsPart(part)
    ensures
      var t := p.tail + part;
      Consumed(p, part, policy) ==
      if part != [] && part[|part| - 1] == '\n'
      then Progress(p.lines + [Closed(t[..|t| - 1], policy)], "")
      else Progress(p.lines, t)
  {
    var t := p.tail + part;
    if part != [] && part[|part| - 1] == '\n' {
      var init := t[..|t| - 1];
      assert init == p.tail + part[..|part| - 1];
      Unbroken(init);
      assert ClosedAll([init], policy) == [Closed(init, policy)];
    } else {
      assert part == [] || part == part[..|part| - 1] + [part[|part| - 1]];
      Unbroken(t);
      assert p.lines + ClosedAll([], policy) == p.lines;
    }
  }

  // ---------------------------------------------------------------------------
  // The assembler
  // ---------------------------------------------------------------------------

  class Assembler {
    const policy: Policy
    var pending: string
    var oversized: bool
    var sensitiveQuote: Option<char>
    var emitted: seq<string>
    ghost var progress: Progress

    ghost predicate Valid()
      reads this
    {
      && Bytes(pending) <= policy.maxBytes
      && oversized == (Bytes(progress.tail) > policy.maxBytes)
      && pending == (if oversized then "" else progress.tail)
      && '\n' !in progress.tail
      && emitted == Suppressed(progress.lines, policy)
      && sensitiveQuote == QuoteAfter(progress.lines, policy)
    }

    constructor (policy: Policy)
      ensures Valid() && progress == Progress([], "")
      ensures this.policy == policy
    {
      this.policy := policy;
      pending, oversized, sensitiveQuote, emitted := "", false, None, [];
      progress := Progress([], "");
    }

    /** finishLine: emit the line, or its replacement while a quoted credential is open. */
    method FinishLine(line: string, ghost lines: seq<string>)
      requires emitted == Suppressed(lines, policy)
      requires sensitiveQuote == QuoteAfter(lines, policy)
      modifies `sensitiveQuote, `emitted
      ensures emitted == Suppressed(lines + [line], policy)
      ensures sensitiveQuote == QuoteAfter(lines + [line], policy)
    {
      assert (lines + [line])[..|lines|] == lines;
      if sensitiveQuote.Some? {
        if sensitiveQuote.value in line {
          sensitiveQuote := None;
        }
        emitted := emitted + [policy.continued];
        return;
      }
      var quoted := policy.opens(line);
      if quoted.Some? {
        sensitiveQuote := quoted;
        emitted := emitted + [policy.omitted];
      } else {
        emitted := emitted + [line];
      }
    }

    /** Extend the pending text, or give it up once the line exceeds its budget. */
    method Buffer(part: string, ghost tail: string)
      requires oversized == (Bytes(tail) > policy.maxBytes)
      requires pending == (if oversized then "" else tail)
      modifies `pending, `oversized
      ensures oversized == (Bytes(tail + part) > policy.maxBytes)
      ensures pending == (if oversized then "" else tail + part)
    {
      BytesConcat(tail, part);
      if !oversized {
        if Bytes(pending) + Bytes(part) > policy.maxBytes {
          pending, oversized := "", true;
        } else {
          pending := pending + part;
        }
      }
    }

    /** A newline arrived: finish the line and start the next one. */
    method EndLine(ghost line: string, ghost lines: seq<string>)
      requires oversized == (Bytes(line) + 1 > policy.maxBytes)
      requires pending == (if oversized then "" else line + "\n")
      requires emitted == Suppressed(lines, policy) && sensitiveQuote == QuoteAfter(lines, policy)
      modifies `pending, `oversized, `sensitiveQuote, `emitted
      ensures pending == "" && !oversized
      ensures emitted == Suppressed(lines + [Closed(line, policy)], policy)
      ensures sensitiveQuote == QuoteAfter(lines + [Closed(line, policy)], policy)
    {
      var text := policy.oversized;
      if !oversized {
        assert pending[..|pending| - 1] == line;
        text := StripReturn(pending[..|pending| - 1]);
      }
      FinishLine(text, lines);
      pending, oversized := "", false;
    }

    /** A part that ends its line. */
    method ConsumeClosing(part: string)
      requires Valid() && IsPart(part) && part != [] && part[|part| - 1] == '\n'
      modifies `pending, `oversized, `sensitiveQuote, `emitted, `progress
      ensures Valid() && progress == Consumed(old(progress), part, policy)
    {
      hide Consumed, Suppressed, QuoteAfter, Closed, IsPart, Bytes;
      ghost var t := progress.tail + part;
      ghost var line := t[..|t| - 1];
      NewlineBytes();
      ConsumePart(progress, part, policy);
      assert t == line + "\n";
      BytesConcat(line, "\n");
      Buffer(part, progress.tail);
      EndLine(line, progress.lines);
      progress := Progress(progress.lines + [Closed(line, policy)], "");
    }

    /** A part that leaves its line open. */
    method ConsumeOpen(part: string)
      requires Valid() && '\n' !in part
      modifies `pending, `oversized, `progress
      ensures Valid() && progress == Consumed(old(progress), part, policy)
    {
      hide Consumed, Suppressed, QuoteAfter, Closed, Bytes;
      ConsumePart(progress, part, policy);
      Buffer(part, progress.tail);
      NewlineBytes();
      progress := Progress(progress.lines, progress.tail + part);
    }

    /** One part of a chunk, with at most one newline, at its end. */
    method ConsumeOne(part: string)
      requires Valid() && IsPart(part)
      modifies `pending, `oversized, `sensitiveQuote, `emitted, `progress
      ensures Valid() && progress == Consumed(old(progress), part, policy)
    {
      if part != [] && part[|part| - 1] == '\n' {
        ConsumeClosing(part);
      } else {
        assert part != [] ==> part == part[..|part| - 1] + [part[|part| - 1]];
        ConsumeOpen(part);
      }
    }

    /** One write of decoded text. */
    method Write(text: string)
      requires Valid()
      modifies `pending, `oversized, `sensitiveQuote, `emitted, `progress
      ensures Valid() && progress == Consumed(old(progress), text, policy)
    {
      hide Consumed, ConsumedAll, Complete, Tail, Suppressed, QuoteAfter, Bytes, Parts, IsPart;
      var parts := Parts(text);
      PartsOf(text);
      ghost var start := progress;
      Unbroken(start.tail);
      var k := 0;
      NothingMore(start, policy);
      assert parts[..0] == [];
      while k < |parts|
        invariant 0 <= k <= |parts|
        invariant Valid() && progress == ConsumedAll(start, parts[..k], policy)
      {
        ConsumedAllSnoc(start, parts[..k], parts[k], policy);
        assert parts[..k + 1] == parts[..k] + [parts[k]];
        ConsumeOne(parts[k]);
        k := k + 1;
      }
      assert parts[..k] == parts;
      ChunkIndependence(start, parts, policy);
    }

    /** Close what is pending without a newline. */
    method Flush()
      requires Valid()
      modifies `pending, `oversized, `sensitiveQuote, `emitted, `progress
      ensures Valid() && progress.tail == ""
      ensures progress.lines == old(progress.lines) + Unclosed(old(progress.tail), policy)
    {
      if pending != "" || oversized {
        FinishLine(if oversized then policy.oversized else pending, progress.lines);
      } else {
        assert progress.lines + [] == progress.lines;
      }
      progress := Progress(progress.lines + Unclosed(progress.tail, policy), "");
      pending, oversized := "", false;
    }
  }

  lemma {:induction false} ConsumedAllSnoc(p: Progress, chunks: seq<string>, last: string, policy: Policy)
    ensures ConsumedAll(p, chunks + [last], policy) == Consumed(ConsumedAll(p, chunks, policy), last, policy)
    decreases |chunks|
  {
    if chunks == [] {
      assert ([] + [last])[1..] == [];
    } else {
      assert (chunks + [last])[1..] == chunks[1..] + [last];
      ConsumedAllSnoc(Consumed(p, chunks[0], policy), chunks[1..], last, policy);
    }
  }

  /**
   A fresh assembler fed any chunks and flushed once emits exactly the one-shot
   lines of the concatenated text.
   */
  method Assemble(chunks: seq<string>, policy: Policy) returns (emitted: seq<string>)
    ensures emitted == OneShot(Joined(chunks), policy)
  {
    hide Consumed, ConsumedAll, Complete, Tail, Suppressed, ClosedAll, Unclosed, Joined;
    var a := new Assembler(policy);
    ghost var start := a.progress;
    NothingMore(Progress([], ""), policy);
    var k := 0;
    while k < |chunks|
      invariant 0 <= k <= |chunks|
      invariant a.Valid() && a.policy == policy
      invariant a.progress == ConsumedAll(start, chunks[..k], policy)
    {
      ConsumedAllSnoc(start, chunks[..k], chunks[k], policy);
      assert chunks[..k + 1] == chunks[..k] + [chunks[k]];
      a.Write(chunks[k]);
      k := k + 1;
    }
    assert chunks[..k] == chunks;
    FromNothing(chunks, policy);
    a.Flush();
    emitted := a.emitted;
  }

  lemma FromNothing(chunks: seq<string>, policy: Policy)
    ensures
      var text := Joined(chunks);
      ConsumedAll(Progress([], ""), chunks, policy) == Progress(ClosedAll(Complete(text), policy), Tail(text))
    ensures ConsumedAll(Progress([], ""), [], policy) == Progress([], "")
  {
    hide ConsumedAll, Joined, ClosedAll;
    Unbroken("");
    ChunkIndependence(Progress([], ""), chunks, policy);
    ChunkIndependence(Progress([], ""), [], policy);
    NothingMore(Progress([], ""), policy);
    var text := Joined(chunks);
    assert "" + text == text;
    assert [] + ClosedAll(Complete(text), policy) == ClosedAll(Complete(text), policy);
  }

  lemma NothingMore(p: Progress, policy: Policy)
    ensures ConsumedAll(p, [], policy) == p
  {
  }
}
