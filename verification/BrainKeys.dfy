/** The text of index keys, and the canonical form of an artifact's tags. */
module BrainKeys {
  import opened BrainIndex
  import opened Decimals
  import opened Wrappers
  import WeightedSums

  const DOT := '.'

  function Render(key: Key): string {
    match key
    case HashKey(hash) => "artifact.hash." + hash
    case EdgeKey(from, to, kind) => "connection." + EdgeText(from, to, kind)
  }

  function EdgeText(from: nat, to: nat, kind: string): string {
    Decimal(from) + [DOT] + (kind + [DOT] + Decimal(to))
  }

  predicate Dotless(s: string) {
    forall i :: 0 <= i < |s| ==> s[i] != DOT
  }

  /** The first dot splits a text in one way only. */
  lemma SplitAtDot(a: string, b: string, c: string, d: string)
    requires Dotless(a) && Dotless(c) && a + [DOT] + b == c + [DOT] + d
    ensures a == c && b == d
  {
    var s, t := a + [DOT] + b, c + [DOT] + d;
    assert s[|a|] == DOT && t[|c|] == DOT;
    assert |a| == |c|;
    assert s[..|a|] == a && t[..|a|] == c;
    assert s[|a| + 1..] == b && t[|a| + 1..] == d;
  }

  lemma EdgeTextInjective(from: nat, to: nat, kind: string, from': nat, to': nat, kind': string)
    requires Dotless(kind) && Dotless(kind') && EdgeText(from, to, kind) == EdgeText(from', to', kind')
    ensures from == from' && to == to' && kind == kind'
  {
    hide Decimal;
    SplitAtDot(Decimal(from), kind + [DOT] + Decimal(to), Decimal(from'), kind' + [DOT] + Decimal(to'));
    DecimalInjective(from, from');
    SplitAtDot(kind, Decimal(to), kind', Decimal(to'));
    DecimalInjective(to, to');
  }

  lemma AfterPrefix(prefix: string, a: string, b: string)
    requires prefix + a == prefix + b
    ensures a == b
  {
    assert (prefix + a)[|prefix|..] == a && (prefix + b)[|prefix|..] == b;
  }

  /** Two keys share their text only when they are the same key, as long as no kind has a dot. */
  lemma RenderInjective(a: Key, b: Key)
    requires a.EdgeKey? ==> Dotless(a.kind)
    requires b.EdgeKey? ==> Dotless(b.kind)
    ensures Render(a) == Render(b) <==> a == b
  {
    hide EdgeText;
    assert a.HashKey? ==> Render(a)[0] == 'a';
    assert a.EdgeKey? ==> Render(a)[0] == 'c';
    assert b.HashKey? ==> Render(b)[0] == 'a';
    assert b.EdgeKey? ==> Render(b)[0] == 'c';
    if Render(a) == Render(b) {
      if a.HashKey? && b.HashKey? {
        AfterPrefix("artifact.hash.", a.hash, b.hash);
      } else if a.EdgeKey? && b.EdgeKey? {
        AfterPrefix("connection.", EdgeText(a.from, a.to, a.kind), EdgeText(b.from, b.to, b.kind));
        EdgeTextInjective(a.from, a.to, a.kind, b.from, b.to, b.kind);
      }
    }
  }

  // ---------------------------------------------------------------------------
  // Tags: trimmed, non-empty, without repetition, sorted
  // ---------------------------------------------------------------------------

  function Cleaned(tags: seq<string>, trim: string -> string): seq<string> {
    if tags == [] then []
    else
      var rest := Cleaned(tags[..|tags| - 1], trim);
      var tag := trim(tags[|tags| - 1]);
      if tag == [] || tag in rest then rest else rest + [tag]
  }

  function NormalizeTags(tags: seq<string>, trim: string -> string, less: (string, string) -> bool): seq<string> {
    WeightedSums.Sorted(Cleaned(tags, trim), less)
  }

  ghost predicate TotalOrder(less: (string, string) -> bool) {
    && (forall x, y :: less(x, y) ==> !less(y, x))
    && (forall x, y :: x == y || less(x, y) || less(y, x))
    && (forall x, y, z :: less(x, y) && less(y, z) ==> less(x, z))
  }

  predicate Rising(xs: seq<string>, less: (string, string) -> bool) {
    forall i, j :: 0 <= i < j < |xs| ==> less(xs[i], xs[j])
  }

  predicate Names(tags: seq<string>, trim: string -> string, tag: string) {
    tag != [] && exists i :: 0 <= i < |tags| && trim(tags[i]) == tag
  }

  lemma {:induction false} CleanedHas(tags: seq<string>, trim: string -> string, tag: string)
    ensures tag in Cleaned(tags, trim) <==> Names(tags, trim, tag)
  {
    if tags != [] {
      var shorter := tags[..|tags| - 1];
      CleanedHas(shorter, trim, tag);
      if Names(shorter, trim, tag) {
        var i :| 0 <= i < |shorter| && trim(shorter[i]) == tag;
        assert trim(tags[i]) == tag;
      }
      if Names(tags, trim, tag) && trim(tags[|tags| - 1]) != tag {
        var i :| 0 <= i < |tags| && trim(tags[i]) == tag;
        assert trim(shorter[i]) == tag;
      }
    }
  }

  lemma {:induction false} InsertHas(xs: seq<string>, x: string, less: (string, string) -> bool, y: string)
    ensures y in WeightedSums.Insert(xs, x, less) <==> y == x || y in xs
  {
    if xs != [] && !less(x, xs[0]) {
      InsertHas(xs[1..], x, less, y);
      assert xs == [xs[0]] + xs[1..];
    }
  }

  lemma {:induction false} InsertRising(xs: seq<string>, x: string, less: (string, string) -> bool)
    requires TotalOrder(less) && Rising(xs, less) && x !in xs
    ensures Rising(WeightedSums.Insert(xs, x, less), less)
  {
    if xs != [] && !less(x, xs[0]) {
      assert less(xs[0], x);
      InsertRising(xs[1..], x, less);
      var rest := WeightedSums.Insert(xs[1..], x, less);
      forall i | 0 <= i < |rest| ensures less(xs[0], rest[i]) {
        InsertHas(xs[1..], x, less, rest[i]);
      }
    } else if xs != [] {
      forall i | 0 <= i < |xs| ensures less(x, xs[i]) {
        if i > 0 { assert less(xs[0], xs[i]); }
      }
    }
  }

  predicate Once(xs: seq<string>) {
    forall i, j :: 0 <= i < j < |xs| ==> xs[i] != xs[j]
  }

  lemma {:induction false} SortedRises(xs: seq<string>, less: (string, string) -> bool)
    requires TotalOrder(less) && Once(xs)
    ensures Rising(WeightedSums.Sorted(xs, less), less)
    ensures forall y :: y in WeightedSums.Sorted(xs, less) <==> y in xs
  {
    if xs != [] {
      var shorter, x := xs[..|xs| - 1], xs[|xs| - 1];
      SortedRises(shorter, less);
      assert xs == shorter + [x];
      InsertRising(WeightedSums.Sorted(shorter, less), x, less);
      forall y ensures y in WeightedSums.Sorted(xs, less) <==> y in xs {
        InsertHas(WeightedSums.Sorted(shorter, less), x, less, y);
      }
    }
  }

  lemma {:induction false} CleanedOnce(tags: seq<string>, trim: string -> string)
    ensures Once(Cleaned(tags, trim))
  {
    if tags != [] { CleanedOnce(tags[..|tags| - 1], trim); }
  }

  /** The normal form rises strictly and holds exactly the trimmed, non-empty tags. */
  lemma NormalizedTags(tags: seq<string>, trim: string -> string, less: (string, string) -> bool)
    requires TotalOrder(less)
    ensures Rising(NormalizeTags(tags, trim, less), less)
    ensures forall tag :: tag in NormalizeTags(tags, trim, less) <==> Names(tags, trim, tag)
  {
    CleanedOnce(tags, trim);
    SortedRises(Cleaned(tags, trim), less);
    forall tag ensures tag in NormalizeTags(tags, trim, less) <==> Names(tags, trim, tag) {
      CleanedHas(tags, trim, tag);
    }
  }

  lemma TailHas(xs: seq<string>, less: (string, string) -> bool, t: string)
    requires TotalOrder(less) && Rising(xs, less) && xs != []
    ensures t in xs[1..] <==> t in xs && t != xs[0]
  {
    assert xs == [xs[0]] + xs[1..];
    if t in xs[1..] {
      var i :| 0 <= i < |xs[1..]| && xs[1..][i] == t;
      assert less(xs[0], xs[i + 1]);
    }
  }

  lemma {:induction false} RisingIsUnique(xs: seq<string>, ys: seq<string>, less: (string, string) -> bool)
    requires TotalOrder(less) && Rising(xs, less) && Rising(ys, less)
    requires forall t :: t in xs <==> t in ys
    ensures xs == ys
  {
    if ys != [] { assert ys[0] in xs; }
    if xs != [] {
      assert xs[0] in ys;
      assert ys[0] in xs;
      forall t ensures t in xs[1..] <==> t in ys[1..] {
        TailHas(xs, less, t);
        TailHas(ys, less, t);
      }
      RisingIsUnique(xs[1..], ys[1..], less);
      assert xs == [xs[0]] + xs[1..] && ys == [ys[0]] + ys[1..];
    }
  }

  /** Inputs that name the same tags, in any order and with any repetition, are captured alike. */
  lemma TagOrderIsIgnored(
    w: World, db: Database, input: Input, tags: seq<string>, linker: AutoLinker,
    trim: string -> string, less: (string, string) -> bool)
    requires TotalOrder(less) && forall ts :: w.tidy(ts) == NormalizeTags(ts, trim, less)
    requires forall tag :: Names(tags, trim, tag) <==> Names(input.tags, trim, tag)
    ensures Capture(w, db, input.(tags := tags), linker) == Capture(w, db, input, linker)
  {
    hide Capture;
    NormalizedTags(tags, trim, less);
    NormalizedTags(input.tags, trim, less);
    RisingIsUnique(w.tidy(tags), w.tidy(input.tags), less);
    CaptureReadsTidyTags(w, db, input, tags, linker);
  }

  lemma CaptureReadsTidyTags(w: World, db: Database, input: Input, tags: seq<string>, linker: AutoLinker)
    requires w.tidy(tags) == w.tidy(input.tags)
    ensures Capture(w, db, input.(tags := tags), linker) == Capture(w, db, input, linker)
  {
    hide ByHash, Completed, Inserted;
  }
}
