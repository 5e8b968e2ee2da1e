/** Injecting a marked block into a page and stripping it again. */
module Inject {
  import opened Wrappers

  /** The two markers and the fixed text around the script. */
  datatype Markers = Markers(open: string, close: string, before: string, after: string)

  const NEWLINE := '\n'

  predicate At(s: string, m: string, i: int) {
    0 <= i <= |s| - |m| && s[i..i + |m|] == m
  }

  ghost predicate Contains(s: string, m: string) {
    exists i :: At(s, m, i)
  }

  /** The first place at or after `from` where the text holds `m`. */
  function IndexOf(s: string, m: string, from: nat): (r: Option<nat>)
    ensures r.Some? ==> from <= r.value && At(s, m, r.value)
    ensures r.Some? ==> forall i :: from <= i < r.value ==> !At(s, m, i)
    ensures r.None? ==> forall i :: from <= i ==> !At(s, m, i)
    decreases |s| - from
  {
    if from > |s| then None
    else if At(s, m, from) then Some(from)
    else IndexOf(s, m, from + 1)
  }

  function Strip(html: string, m: Markers): string {
    var start := IndexOf(html, m.open, 0);
    if start.None? then html
    else
      var end := IndexOf(html, m.close, start.value);
      if end.None? then html
      else
        var after := end.value + |m.close|;
        var cut := if after < |html| && html[after] == NEWLINE then after + 1 else after;
        html[..start.value] + html[cut..]
  }

  function Prelude(sdk: string, m: Markers): string {
    m.open + [NEWLINE] + (m.before + [NEWLINE] + (sdk + [NEWLINE] + (m.after + [NEWLINE])))
  }

  function Block(sdk: string, m: Markers): string {
    Prelude(sdk, m) + m.close
  }

  function Clip(k: nat, html: string): nat {
    if k <= |html| then k else |html|
  }

  /** The block and one newline, at the given place. */
  function Inserted(html: string, k: nat, sdk: string, m: Markers): string
    requires k <= |html|
  {
    html[..k] + (Block(sdk, m) + ([NEWLINE] + html[k..]))
  }

  /**
   `bodyClose` finds the insertion place in the lower-cased page, whose length may
   differ from the page's; slicing clips it.
   */
  function Injected(html: string, sdk: string, bodyClose: string -> Option<nat>, m: Markers): string {
    var clean := Strip(html, m);
    Inserted(clean, Place(clean, bodyClose), sdk, m)
  }

  /** Where the block goes on a page. */
  function Place(html: string, bodyClose: string -> Option<nat>): (k: nat)
    ensures k <= |html|
  {
    if bodyClose(html).Some? then Clip(bodyClose(html).value, html) else |html|
  }

  // ---------------------------------------------------------------------------
  // Markers
  // ---------------------------------------------------------------------------

  /** A marker whose first character comes nowhere else in it, and that has no newline. */
  predicate Marker(m: string) {
    && |m| > 0
    && (forall i :: 0 < i < |m| ==> m[i] != m[0])
    && (forall i :: 0 <= i < |m| ==> m[i] != NEWLINE)
  }

  ghost predicate Sound(m: Markers) {
    && Marker(m.open) && Marker(m.close)
    && !Contains(m.open, m.close) && !Contains(m.before, m.close) && !Contains(m.after, m.close)
  }

  lemma AtChar(s: string, m: string, i: int, j: int)
    requires At(s, m, i)
    ensures 0 <= j < |m| ==> s[i + j] == m[j]
  {
    var t := s[i..i + |m|];
    if 0 <= j < |m| { assert t[j] == s[i + j]; }
  }

  /** With no second start inside it, a marker cannot straddle the start of text that begins like it. */
  lemma NoStraddle(a: string, b: string, m: string, i: int)
    requires Marker(m) && b != [] && b[0] == m[0] && At(a + b, m, i) && i < |a|
    ensures At(a, m, i)
  {
    var s := a + b;
    AtChar(s, m, i, |a| - i);
    assert s[|a|] == b[0];
    assert s[i..i + |m|] == a[i..i + |m|];
  }

  /** Text without newlines lies on one side of a newline. */
  lemma OneSide(a: string, b: string, m: string, i: int)
    requires Marker(m) && At(a + [NEWLINE] + b, m, i)
    ensures At(a, m, i) || At(b, m, i - |a| - 1)
  {
    var s := a + [NEWLINE] + b;
    AtChar(s, m, i, |a| - i);
    assert s[|a|] == NEWLINE;
    if i + |m| <= |a| {
      assert s[i..i + |m|] == a[i..i + |m|];
    } else {
      assert s[i..i + |m|] == b[i - |a| - 1..i - |a| - 1 + |m|];
    }
  }

  lemma NoneOnEitherSide(a: string, b: string, m: string)
    requires Marker(m) && !Contains(a, m) && !Contains(b, m)
    ensures !Contains(a + [NEWLINE] + b, m)
  {
    forall i ensures !At(a + [NEWLINE] + b, m, i) {
      if At(a + [NEWLINE] + b, m, i) {
        OneSide(a, b, m, i);
      }
    }
  }

  lemma EmptyHasNone(m: string)
    requires Marker(m)
    ensures !Contains([], m)
  {
  }

  /** The script's own text decides whether the end marker occurs before its place. */
  lemma PreludeIff(sdk: string, m: Markers)
    requires Sound(m)
    ensures Contains(Prelude(sdk, m), m.close) <==> Contains(sdk, m.close)
  {
    hide Contains;
    if !Contains(sdk, m.close) {
      EmptyHasNone(m.close);
      assert m.after + [NEWLINE] + [] == m.after + [NEWLINE];
      NoneOnEitherSide(m.after, [], m.close);
      NoneOnEitherSide(sdk, m.after + [NEWLINE], m.close);
      NoneOnEitherSide(m.before, sdk + [NEWLINE] + (m.after + [NEWLINE]), m.close);
      NoneOnEitherSide(m.open, m.before + [NEWLINE] + (sdk + [NEWLINE] + (m.after + [NEWLINE])), m.close);
    } else {
      SdkInPrelude(sdk, m);
    }
  }

  lemma AtShift(a: string, b: string, c: string, m: string, i: int)
    requires At(b, m, i)
    ensures At(a + b + c, m, |a| + i)
  {
    assert (a + b + c)[|a| + i..|a| + i + |m|] == b[i..i + |m|];
  }

  lemma SdkInPrelude(sdk: string, m: Markers)
    requires Contains(sdk, m.close)
    ensures Contains(Prelude(sdk, m), m.close)
  {
    var i :| At(sdk, m.close, i);
    var a, c := m.open + [NEWLINE] + m.before + [NEWLINE], [NEWLINE] + (m.after + [NEWLINE]);
    AtShift(a, sdk, c, m.close, i);
    assert a + sdk + c == Prelude(sdk, m);
  }

  // ---------------------------------------------------------------------------
  // Finding the block again
  // ---------------------------------------------------------------------------

  lemma IndexOfIs(s: string, m: string, from: nat, k: nat)
    requires from <= k && At(s, m, k) && forall i :: from <= i < k ==> !At(s, m, i)
    ensures IndexOf(s, m, from) == Some(k)
  {
  }

  lemma AtInWhole(s: string, k: nat, m: string, i: int)
    requires k <= |s| && At(s[..k], m, i)
    ensures At(s, m, i)
  {
    assert s[..k][i..i + |m|] == s[i..i + |m|];
  }

  lemma FindsStart(html: string, k: nat, sdk: string, m: Markers)
    requires k <= |html| && Marker(m.open) && !Contains(html[..k], m.open)
    ensures IndexOf(Inserted(html, k, sdk, m), m.open, 0) == Some(k)
  {
    var a, b := html[..k], Block(sdk, m) + ([NEWLINE] + html[k..]);
    var s := a + b;
    assert b[..|m.open|] == m.open;
    assert s[k..k + |m.open|] == m.open;
    forall i | 0 <= i < k ensures !At(s, m.open, i) {
      if At(s, m.open, i) {
        NoStraddle(a, b, m.open, i);
      }
    }
    IndexOfIs(s, m.open, 0, k);
  }

  /** Where the end marker is found, as an offset into the block. */
  lemma FindsEnd(html: string, k: nat, sdk: string, m: Markers) returns (end: nat)
    requires k <= |html| && Sound(m)
    ensures end <= |Prelude(sdk, m)|
    ensures IndexOf(Inserted(html, k, sdk, m), m.close, k) == Some(k + end)
    ensures end == |Prelude(sdk, m)| <==> !Contains(sdk, m.close)
  {
    hide At, Contains, IndexOf;
    var a, p, rest := html[..k], Prelude(sdk, m), [NEWLINE] + html[k..];
    PreludeIff(sdk, m);
    EndInBlock(p, m.close);
    end := IndexOf(p + m.close, m.close, 0).value;
    assert Inserted(html, k, sdk, m) == a + (p + m.close) + rest;
    EndShifts(a, p + m.close, rest, m.close, end);
  }

  /** The first end marker of a block is the first one from the block's place on. */
  lemma EndShifts(a: string, block: string, rest: string, close: string, end: nat)
    requires IndexOf(block, close, 0) == Some(end)
    ensures IndexOf(a + block + rest, close, |a|) == Some(|a| + end)
  {
    hide IndexOf;
    var s := a + block + rest;
    forall i | |a| <= i < |a| + end ensures !At(s, close, i) {
      AtUnshift(a, block, rest, close, i - |a|, end);
    }
    AtShift(a, block, rest, close, end);
    IndexOfIs(s, close, |a|, |a| + end);
  }

  lemma AtUnshift(a: string, b: string, c: string, m: string, i: nat, end: nat)
    requires i < end && At(b, m, end) && !At(b, m, i)
    ensures !At(a + b + c, m, |a| + i)
  {
    assert (a + b + c)[|a| + i..|a| + i + |m|] == b[i..i + |m|];
  }

  lemma EndInBlock(p: string, close: string)
    requires Marker(close)
    ensures
      var r := IndexOf(p + close, close, 0);
      && r.Some? && r.value <= |p|
      && (r.value == |p| <==> !Contains(p, close))
  {
    hide IndexOf, At, Marker;
    var block := p + close;
    AtShift(p, close, [], close, 0);
    assert p + close + [] == block;
    var r := IndexOf(block, close, 0);
    if r.value < |p| {
      StartsAlike(close);
      NoStraddle(p, close, close, r.value);
    } else {
      forall i ensures !At(p, close, i) {
        if At(p, close, i) {
          AtShift([], p, close, close, i);
          assert [] + p + close == block;
          AtBefore(p, close, i);
        }
      }
    }
  }

  lemma StartsAlike(m: string)
    requires Marker(m)
    ensures m != []
  {
  }

  lemma AtBefore(s: string, m: string, i: int)
    requires Marker(m) && At(s, m, i)
    ensures 0 <= i < |s|
  {
  }

  // ---------------------------------------------------------------------------
  // The round trip
  // ---------------------------------------------------------------------------

  /** With no begin marker before the block, stripping gives the page back exactly when the script has no end marker. */
  lemma StripUnmarkedBefore(html: string, k: nat, sdk: string, m: Markers)
    requires k <= |html| && Sound(m) && !Contains(html[..k], m.open)
    ensures Strip(Inserted(html, k, sdk, m), m) == html <==> !Contains(sdk, m.close)
  {
    hide IndexOf, Contains;
    var s := Inserted(html, k, sdk, m);
    FindsStart(html, k, sdk, m);
    var end := FindsEnd(html, k, sdk, m);
    var after := k + end + |m.close|;
    var p := |Prelude(sdk, m)|;
    assert |s| == |html| + p + |m.close| + 1;
    if end == p {
      assert s[after] == NEWLINE;
      assert s[after + 1..] == html[k..];
      assert s[..k] == html[..k];
    }
  }

  /** The first begin marker before the block is still the first one on the page with the block. */
  lemma FindsStray(a: string, b: string, m: string, j: nat)
    requires Marker(m) && IndexOf(a, m, 0) == Some(j) && b != [] && b[0] == m[0]
    ensures IndexOf(a + b, m, 0) == Some(j) && j < |a|
  {
    hide IndexOf, At, Marker;
    AtBefore(a, m, j);
    AtShift([], a, b, m, j);
    assert [] + a + b == a + b;
    forall i | 0 <= i < j ensures !At(a + b, m, i) {
      if At(a + b, m, i) {
        NoStraddle(a, b, m, i);
      }
    }
    IndexOfIs(a + b, m, 0, j);
  }

  /** After a stray begin marker the first end marker is the block's first. */
  lemma FindsStrayEnd(html: string, k: nat, sdk: string, m: Markers, j: nat) returns (end: nat)
    requires k <= |html| && Sound(m) && m.open[0] == m.close[0] && j < k
    requires forall i :: j <= i ==> !At(html[..k], m.close, i)
    ensures end <= |Prelude(sdk, m)|
    ensures IndexOf(Inserted(html, k, sdk, m), m.close, j) == Some(k + end)
    ensures At(Inserted(html, k, sdk, m), m.close, k + end)
    ensures end == |Prelude(sdk, m)| <==> !Contains(sdk, m.close)
  {
    hide IndexOf, At, Contains;
    end := FindsEnd(html, k, sdk, m);
    var s := Inserted(html, k, sdk, m);
    var a, b := html[..k], Block(sdk, m) + ([NEWLINE] + html[k..]);
    assert s == a + b;
    StartsAlike(m.open);
    assert b[0] == m.open[0];
    forall i | j <= i < k + end ensures !At(s, m.close, i) {
      if i < k && At(s, m.close, i) {
        NoStraddle(a, b, m.close, i);
      }
    }
    IndexOfIs(s, m.close, j, k + end);
  }

  /** The block's own end marker. */
  lemma BlockEnd(html: string, k: nat, sdk: string, m: Markers)
    requires k <= |html|
    ensures At(Inserted(html, k, sdk, m), m.close, k + |Prelude(sdk, m)|)
  {
    var a, c := html[..k] + Prelude(sdk, m), [NEWLINE] + html[k..];
    assert a + m.close + c == Inserted(html, k, sdk, m);
    AtShift(a, m.close, c, m.close, 0);
  }

  /** Two occurrences of a marker do not overlap. */
  lemma Apart(s: string, m: string, i: int, j: int)
    requires Marker(m) && At(s, m, i) && At(s, m, j) && i < j
    ensures i + |m| <= j && s[j] != NEWLINE
  {
    AtChar(s, m, j, 0);
    AtChar(s, m, i, j - i);
  }

  lemma AtSuffix(s: string, cut: nat, t: string, m: string, i: int)
    requires cut <= i && cut <= |s| && At(s, m, i)
    ensures At(t + s[cut..], m, |t| + i - cut)
  {
    assert (t + s[cut..])[|t| + i - cut..|t| + i - cut + |m|] == s[i..i + |m|];
  }

  /** Where stripping the text cuts after an end marker at `end`. */
  function CutAfter(s: string, end: nat, m: Markers): nat {
    var after := end + |m.close|;
    if after < |s| && s[after] == NEWLINE then after + 1 else after
  }

  /** What stripping leaves when the first markers are at `j` and `end`. */
  lemma StripAt(s: string, m: Markers, j: nat, end: nat)
    requires IndexOf(s, m.open, 0) == Some(j) && IndexOf(s, m.close, j) == Some(end)
    ensures CutAfter(s, end, m) <= |s| && Strip(s, m) == s[..j] + s[CutAfter(s, end, m)..]
  {
    hide IndexOf, At;
    AtEnds(s, m.close, end);
  }

  lemma InsertedLength(html: string, k: nat, sdk: string, m: Markers)
    requires k <= |html|
    ensures
      var s, p := Inserted(html, k, sdk, m), |Prelude(sdk, m)|;
      |s| == |html| + p + |m.close| + 1 && s[k + p + |m.close|] == NEWLINE
  {
    hide Prelude;
  }

  /**
   A page with a begin marker before the block, and no end marker between the two, is
   lost: stripping cuts the text in between, or leaves the block's end marker there.
   */
  lemma StripOpenBefore(html: string, k: nat, sdk: string, m: Markers, j: nat)
    requires k <= |html| && Sound(m) && m.open[0] == m.close[0]
    requires IndexOf(html[..k], m.open, 0) == Some(j) && IndexOf(html[..k], m.close, j).None?
    ensures Strip(Inserted(html, k, sdk, m), m) != html
  {
    hide IndexOf, At, Marker, Strip, Inserted, Prelude;
    var s := Inserted(html, k, sdk, m);
    StrayStart(html, k, sdk, m, j);
    var end := FindsStrayEnd(html, k, sdk, m, j);
    var p := |Prelude(sdk, m)|;
    InsertedLength(html, k, sdk, m);
    StripAt(s, m, j, k + end);
    if end < p {
      BlockEnd(html, k, sdk, m);
      Apart(s, m.close, k + end, k + p);
      EndIsLeft(html, s, m.close, j, k, p, CutAfter(s, k + end, m));
    }
  }

  /** If stripping gave the page back, the block's end marker would lie before the place. */
  lemma EndIsLeft(html: string, s: string, close: string, j: nat, k: nat, p: nat, cut: nat)
    requires j <= k <= |html| && |s| == |html| + p + |close| + 1 && cut <= k + p && At(s, close, k + p)
    requires forall i :: j <= i ==> !At(html[..k], close, i)
    ensures s[..j] + s[cut..] != html
  {
    hide At;
    AtSuffix(s, cut, s[..j], close, k + p);
    if s[..j] + s[cut..] == html {
      AtPrefix(html, k, close, j + k + p - cut);
    }
  }

  lemma AtPrefix(s: string, k: nat, m: string, i: int)
    requires k <= |s| && At(s, m, i) && i + |m| <= k
    ensures At(s[..k], m, i)
  {
    assert s[..k][i..i + |m|] == s[i..i + |m|];
  }

  lemma StrayStart(html: string, k: nat, sdk: string, m: Markers, j: nat)
    requires k <= |html| && Marker(m.open) && IndexOf(html[..k], m.open, 0) == Some(j)
    ensures IndexOf(Inserted(html, k, sdk, m), m.open, 0) == Some(j) && j < k
  {
    hide IndexOf, At;
    FindsStray(html[..k], Block(sdk, m) + ([NEWLINE] + html[k..]), m.open, j);
  }

  // ---------------------------------------------------------------------------
  // Pages with whole blocks before the place
  // ---------------------------------------------------------------------------

  /** What an insertion adds. */
  function Added(sdk: string, m: Markers): string {
    Block(sdk, m) + [NEWLINE]
  }

  function Copies(b: string, n: nat): string {
    if n == 0 then [] else Copies(b, n - 1) + b
  }

  lemma {:induction false} CopiesFront(b: string, n: nat)
    ensures b + Copies(b, n) == Copies(b, n) + b
  {
    if n > 0 {
      CopiesFront(b, n - 1);
      assert b + Copies(b, n) == b + Copies(b, n - 1) + b;
    } else {
      assert b + [] == [] + b;
    }
  }

  /** `u` begins with the begin marker and holds no end marker short of its own end. */
  ghost predicate OneBlock(u: string, m: Markers) {
    && u != [] && m.open != [] && u[0] == m.open[0]
    && forall i :: At(u, m.close, i) ==> i + |m.close| >= |u| - 1
  }

  lemma AddedEnds(sdk: string, m: Markers)
    ensures
      var b := Added(sdk, m);
      |b| > |m.close| && b[|b| - 1] == NEWLINE && b[|b| - 1 - |m.close|..|b| - 1] == m.close
  {
    hide Prelude;
  }

  /** No proper part of a block's end can begin a block. */
  lemma NoRotation(u: string, v: string, x: string, sdk: string, m: Markers)
    requires Sound(m) && m.open[0] == m.close[0] && OneBlock(u, m)
    requires u == v + x && Added(sdk, m) == x + v && x != []
    ensures v == []
  {
    hide Added, At, Contains;
    AddedEnds(sdk, m);
    if v != [] {
      assert v[|v| - 1] == (x + v)[|x + v| - 1] && u[0] == v[0];
      if |v| > |m.close| {
        EndsWithMarker(x, v, m.close);
      } else if |v| > 1 {
        StartsInMarker(x, v, m.close);
      }
    }
  }

  /** A longer end holds the whole end marker, */
  lemma EndsWithMarker(x: string, v: string, m: string)
    requires |v| > |m| && (x + v)[|x + v| - 1 - |m|..|x + v| - 1] == m
    ensures At(v + x, m, |v| - 1 - |m|)
  {
    assert (x + v)[|x + v| - 1 - |m|..|x + v| - 1] == v[|v| - 1 - |m|..|v| - 1];
    assert v[|v| - 1 - |m|..|v| - 1] == (v + x)[|v| - 1 - |m|..|v| - 1];
  }

  /** a shorter one begins inside it. */
  lemma StartsInMarker(x: string, v: string, m: string)
    requires 1 < |v| <= |m| < |x + v| && (x + v)[|x + v| - 1 - |m|..|x + v| - 1] == m
    ensures v[0] == m[|m| + 1 - |v|]
  {
    var t := (x + v)[|x + v| - 1 - |m|..|x + v| - 1];
    assert t[|m| + 1 - |v|] == (x + v)[|x|];
  }

  /** Text that stays the same when a block is taken from its front and one added at its end is copies of that block. */
  lemma {:induction false} ShiftIsCopies(w: string, u: string, sdk: string, m: Markers) returns (n: nat)
    requires Sound(m) && m.open[0] == m.close[0] && OneBlock(u, m)
    requires u <= w && w == w[|u|..] + Added(sdk, m)
    ensures n > 0 && w == Copies(Added(sdk, m), n) && u == Added(sdk, m)
    decreases |w|
  {
    hide OneBlock, Added, Sound, At;
    var b, rest := Added(sdk, m), w[|u|..];
    UHasLength(u, m);
    assert |b| == |u|;
    if |rest| >= |u| {
      assert rest[..|u|] == w[..|u|] == u;
      assert rest == (rest + b)[..|rest|] && rest[|u|..] + b == w[|u|..];
      n := ShiftIsCopies(rest, u, sdk, m);
      n := n + 1;
      assert Copies(b, n) == Copies(b, n - 1) + b;
    } else {
      var x := u[|rest|..];
      assert u == w[..|u|] && u[..|rest|] == w[..|rest|] == rest;
      assert u == rest + x;
      assert w == u + rest;
      assert b == w[|rest|..] == x + rest;
      NoRotation(u, rest, x, sdk, m);
      n := 1;
      assert Copies(b, 0) == [] && Copies(b, 1) == [] + b;
    }
  }

  lemma UHasLength(u: string, m: Markers)
    requires OneBlock(u, m)
    ensures u != []
  {
  }

  lemma BlockStarts(sdk: string, m: Markers)
    requires Marker(m.open)
    ensures Block(sdk, m) != [] && Block(sdk, m)[0] == m.open[0]
  {
  }

  /** With a whole block before the place, stripping takes that one and leaves the one just inserted. */
  lemma StripTakesFirst(html: string, k: nat, sdk: string, m: Markers, j: nat, end: nat)
    requires k <= |html| && Sound(m) && m.open[0] == m.close[0]
    requires IndexOf(html[..k], m.open, 0) == Some(j) && IndexOf(html[..k], m.close, j) == Some(end)
    ensures
      var cut := CutAfter(html[..k], end, m);
      && j < cut <= k
      && Strip(Inserted(html, k, sdk, m), m) == html[..j] + (html[..k][cut..] + (Added(sdk, m) + html[k..]))
  {
    hide IndexOf, At, Marker, Strip, Prelude;
    var a, b := html[..k], Block(sdk, m) + ([NEWLINE] + html[k..]);
    StrayStart(html, k, sdk, m, j);
    BlockStarts(sdk, m);
    StartsAlike(m.close);
    FindsStrayFrom(a, b, m.close, j, end);
    StripAt(a + b, m, j, end);
    NoNewlineFirst(m.open);
    var cut := CutAfter(a, end, m);
    assert (a + b)[..j] == html[..j];
    assert (a + b)[cut..] == a[cut..] + b;
    assert b == Added(sdk, m) + html[k..];
  }

  lemma NoNewlineFirst(m: string)
    requires Marker(m)
    ensures m != [] && m[0] != NEWLINE
  {
  }

  lemma FindsStrayFrom(a: string, b: string, m: string, from: nat, end: nat)
    requires Marker(m) && IndexOf(a, m, from) == Some(end) && b != [] && b[0] == m[0]
    ensures IndexOf(a + b, m, from) == Some(end) && from <= end && end + |m| <= |a|
  {
    hide IndexOf, Marker;
    AtShift([], a, b, m, end);
    assert [] + a + b == a + b;
    forall i | from <= i < end ensures !At(a + b, m, i) {
      if At(a + b, m, i) {
        NoStraddle(a, b, m, i);
      }
    }
    IndexOfIs(a + b, m, from, end);
  }

  /** The first block of the page, up to the cut. */
  lemma FirstIsOneBlock(a: string, m: Markers, j: nat, end: nat)
    requires Sound(m) && IndexOf(a, m.open, 0) == Some(j) && IndexOf(a, m.close, j) == Some(end)
    ensures j < CutAfter(a, end, m) <= |a| && OneBlock(a[j..CutAfter(a, end, m)], m)
  {
    hide IndexOf, At, Marker;
    StartsAlike(m.open);
    StartsAlike(m.close);
    AtChar(a, m.open, j, 0);
    var cut := CutAfter(a, end, m);
    AtEnds(a, m.close, end);
    var u := a[j..cut];
    assert u[0] == a[j];
    forall i | At(u, m.close, i) ensures i + |m.close| >= |u| - 1 {
      AtIsNonNegative(u, m.close, i);
      AtSlice(a, j, cut, m.close, i);
    }
  }

  lemma AtEnds(s: string, m: string, i: int)
    requires At(s, m, i)
    ensures 0 <= i && i + |m| <= |s|
  {
  }

  lemma AtSlice(a: string, j: nat, cut: nat, m: string, i: int)
    requires j <= cut <= |a| && At(a[j..cut], m, i)
    ensures At(a, m, j + i)
  {
    var t := a[j..cut];
    assert forall x :: i <= x < i + |m| ==> t[x] == a[j + x];
    assert t[i..i + |m|] == a[j + i..j + i + |m|];
  }

  lemma AtIsNonNegative(s: string, m: string, i: int)
    requires At(s, m, i)
    ensures 0 <= i
  {
  }

  /** From the first begin marker before the place on, the page is copies of the very block, one or more. */
  ghost predicate Stacked(html: string, k: nat, sdk: string, m: Markers)
    requires k <= |html|
  {
    var first := IndexOf(html[..k], m.open, 0);
    first.Some? && exists n: nat :: n > 0 && html[..k][first.value..] == Copies(Added(sdk, m), n)
  }

  lemma Around(html: string, j: nat, k: nat, middle: string)
    requires j <= k <= |html|
    ensures html[..j] + (middle + html[k..]) == html <==> middle == html[j..k]
  {
    var t := html[..j] + (middle + html[k..]);
    assert html == html[..j] + (html[j..k] + html[k..]);
    if t == html {
      assert |middle| == k - j;
      assert t[j..k] == middle;
    }
  }

  /** The script has no end marker if what it makes is one block. */
  lemma OneBlockIsClean(sdk: string, m: Markers)
    requires Sound(m) && OneBlock(Added(sdk, m), m)
    ensures !Contains(sdk, m.close)
  {
    hide Prelude, Marker;
    var b, p := Added(sdk, m), Prelude(sdk, m);
    PreludeIff(sdk, m);
    forall i ensures !At(p, m.close, i) {
      if At(p, m.close, i) {
        AtShift([], p, m.close + [NEWLINE], m.close, i);
        assert [] + p + (m.close + [NEWLINE]) == b;
        StartsAlike(m.close);
        AtEnds(p, m.close, i);
      }
    }
  }

  /** A page that begins its blocks with a copy of the very block loses exactly that copy. */
  lemma CopyIsCut(a: string, sdk: string, m: Markers, j: nat, n: nat)
    requires Sound(m) && j <= |a| && !Contains(sdk, m.close) && n > 0 && a[j..] == Copies(Added(sdk, m), n)
    ensures
      var end := IndexOf(a, m.close, j);
      && end.Some? && CutAfter(a, end.value, m) == j + |Added(sdk, m)| <= |a|
      && a[j..] == a[j + |Added(sdk, m)|..] + Added(sdk, m)
  {
    hide IndexOf, At, Contains, Prelude, Marker, Copies, Added, Block;
    var b, p, more := Added(sdk, m), Prelude(sdk, m), Copies(Added(sdk, m), n - 1);
    CopiesSplit(b, n);
    AddedParts(sdk, m, more);
    PreludeIff(sdk, m);
    EndInBlock(p, m.close);
    FirstEnd(a[..j], p + m.close, [NEWLINE] + more, m.close, |p|);
    assert a == a[..j] + a[j..];
    TailAfter(a, j, b, more);
  }

  lemma CopiesSplit(b: string, n: nat)
    requires n > 0
    ensures Copies(b, n) == b + Copies(b, n - 1) && Copies(b, n) == Copies(b, n - 1) + b
  {
    CopiesFront(b, n - 1);
  }

  lemma AddedParts(sdk: string, m: Markers, more: string)
    ensures Added(sdk, m) + more == (Prelude(sdk, m) + m.close) + ([NEWLINE] + more)
    ensures |Added(sdk, m)| == |Prelude(sdk, m)| + |m.close| + 1
  {
    hide Prelude;
  }

  lemma FirstEnd(front: string, block: string, rest: string, close: string, end: nat)
    requires rest != [] && IndexOf(block, close, 0) == Some(end)
    ensures IndexOf(front + (block + rest), close, |front|) == Some(|front| + end)
    ensures (front + (block + rest))[|front| + |block|] == rest[0]
  {
    hide IndexOf, At;
    Rejoined(front, block, rest);
    EndShifts(front, block, rest, close, end);
  }

  lemma Rejoined(a: string, b: string, c: string)
    ensures a + (b + c) == a + b + c
  {
  }

  lemma TailAfter(a: string, j: nat, b: string, more: string)
    requires j <= |a| && a[j..] == b + more
    ensures j + |b| <= |a| && a[j + |b|..] == more
  {
    assert a[j + |b|..] == a[j..][|b|..];
  }

  /** A page with a whole block before the place comes back exactly when it is stacked copies of the block inserted. */
  lemma StripWholeBeforeIff(html: string, k: nat, sdk: string, m: Markers, j: nat, end: nat)
    requires k <= |html| && Sound(m) && m.open[0] == m.close[0]
    requires IndexOf(html[..k], m.open, 0) == Some(j) && IndexOf(html[..k], m.close, j) == Some(end)
    ensures Strip(Inserted(html, k, sdk, m), m) == html <==> !Contains(sdk, m.close) && Stacked(html, k, sdk, m)
  {
    hide IndexOf, At, Contains, Strip, Inserted, Added, Marker, OneBlock, CutAfter;
    var a, b := html[..k], Added(sdk, m);
    var cut := CutAfter(a, end, m);
    StripTakesFirst(html, k, sdk, m, j, end);
    assert a[cut..] + (b + html[k..]) == (a[cut..] + b) + html[k..];
    Around(html, j, k, a[cut..] + b);
    assert a[j..] == html[j..k];
    if a[cut..] + b == a[j..] {
      var n := CutIsCopies(a, sdk, m, j, end);
    }
    if !Contains(sdk, m.close) && Stacked(html, k, sdk, m) {
      var n: nat :| n > 0 && a[j..] == Copies(b, n);
      CopyIsCut(a, sdk, m, j, n);
    }
  }

  /** If cutting the first block and adding one at the end changes nothing, all there is are copies of that one. */
  lemma CutIsCopies(a: string, sdk: string, m: Markers, j: nat, end: nat) returns (n: nat)
    requires Sound(m) && m.open[0] == m.close[0]
    requires IndexOf(a, m.open, 0) == Some(j) && IndexOf(a, m.close, j) == Some(end)
    requires j <= CutAfter(a, end, m) <= |a| && a[CutAfter(a, end, m)..] + Added(sdk, m) == a[j..]
    ensures n > 0 && a[j..] == Copies(Added(sdk, m), n) && !Contains(sdk, m.close)
  {
    hide IndexOf, At, Contains, Added, Marker, OneBlock, CutAfter, Copies;
    var cut := CutAfter(a, end, m);
    FirstIsOneBlock(a, m, j, end);
    var u := a[j..cut];
    assert u <= a[j..] && a[j..][|u|..] == a[cut..];
    n := ShiftIsCopies(a[j..], u, sdk, m);
    OneBlockIsClean(sdk, m);
  }

  /**
   Stripping an insertion gives the page back, whatever the page, exactly when the
   script has no end marker and before the place the page has no begin marker, or has
   from its first begin marker on only copies of the very block.
   */
  lemma StripInsertedIff(html: string, k: nat, sdk: string, m: Markers)
    requires k <= |html| && Sound(m) && m.open[0] == m.close[0]
    ensures Strip(Inserted(html, k, sdk, m), m) == html <==>
      !Contains(sdk, m.close) && (!Contains(html[..k], m.open) || Stacked(html, k, sdk, m))
  {
    hide Strip, Inserted, Marker, At, Copies;
    var first := IndexOf(html[..k], m.open, 0);
    if first.None? {
      NotFound(html[..k], m.open);
      StripUnmarkedBefore(html, k, sdk, m);
    } else if IndexOf(html[..k], m.close, first.value).None? {
      StripOpenBefore(html, k, sdk, m, first.value);
      if !Contains(sdk, m.close) { NotStacked(html, k, sdk, m); }
    } else {
      StripWholeBeforeIff(html, k, sdk, m, first.value, IndexOf(html[..k], m.close, first.value).value);
    }
  }

  lemma NotFound(s: string, m: string)
    requires IndexOf(s, m, 0).None?
    ensures !Contains(s, m)
  {
    hide IndexOf;
  }

  /** Copies of the block hold its end marker. */
  lemma NotStacked(html: string, k: nat, sdk: string, m: Markers)
    requires k <= |html| && Sound(m) && !Contains(sdk, m.close)
    requires
      var first := IndexOf(html[..k], m.open, 0);
      first.Some? && IndexOf(html[..k], m.close, first.value).None?
    ensures !Stacked(html, k, sdk, m)
  {
    hide IndexOf, At, Contains, Added, Copies, CutAfter;
    if Stacked(html, k, sdk, m) {
      var j := IndexOf(html[..k], m.open, 0).value;
      AtEnds(html[..k], m.open, j);
      var n: nat :| n > 0 && html[..k][j..] == Copies(Added(sdk, m), n);
      CopyIsCut(html[..k], sdk, m, j, n);
    }
  }

  /** Without a whole block on the page there is no such stack, and a begin marker before the place is fatal. */
  lemma StripBlocklessIff(html: string, k: nat, sdk: string, m: Markers)
    requires k <= |html| && Sound(m) && m.open[0] == m.close[0] && Strip(html, m) == html
    ensures Strip(Inserted(html, k, sdk, m), m) == html <==> !Contains(sdk, m.close) && !Contains(html[..k], m.open)
  {
    hide Marker, At, Copies, Inserted, Strip;
    StripInsertedIff(html, k, sdk, m);
    if !Contains(sdk, m.close) && Stacked(html, k, sdk, m) {
      StackIsStripped(html, k, sdk, m);
    }
  }

  lemma StackIsStripped(html: string, k: nat, sdk: string, m: Markers)
    requires k <= |html| && Sound(m) && !Contains(sdk, m.close) && Stacked(html, k, sdk, m)
    ensures Strip(html, m) != html
  {
    hide IndexOf, At, Contains, Copies, Marker, Strip;
    var a, j := html[..k], IndexOf(html[..k], m.open, 0).value;
    AtEnds(a, m.open, j);
    var n: nat :| n > 0 && a[j..] == Copies(Added(sdk, m), n);
    CopyIsCut(a, sdk, m, j, n);
    var end := IndexOf(a, m.close, j).value;
    FirstInPrefix(html, k, m.open, 0, j);
    FirstInPrefix(html, k, m.close, j, end);
    StripAt(html, m, j, end);
    StartsAlike(m.close);
    AtEnds(a, m.close, end);
  }

  /** The first occurrence in a prefix is the first in the whole. */
  lemma FirstInPrefix(html: string, k: nat, m: string, from: nat, j: nat)
    requires k <= |html| && IndexOf(html[..k], m, from) == Some(j)
    ensures IndexOf(html, m, from) == Some(j)
  {
    hide IndexOf, At;
    AtInWhole(html, k, m, j);
    forall i | from <= i < j ensures !At(html, m, i) {
      if At(html, m, i) {
        AtEarlier(html, k, m, i, j);
      }
    }
    IndexOfIs(html, m, from, j);
  }

  /** What ends before a later occurrence ends lies in the same prefix. */
  lemma AtEarlier(s: string, k: nat, m: string, i: int, j: int)
    requires k <= |s| && At(s, m, i) && At(s[..k], m, j) && i <= j
    ensures At(s[..k], m, i)
  {
    assert s[..k][i..i + |m|] == s[i..i + |m|];
  }

  /** The same for a whole injection, of any page: what comes back is the page without its first block. */
  lemma StripInjectedIff(html: string, sdk: string, bodyClose: string -> Option<nat>, m: Markers)
    requires Sound(m) && m.open[0] == m.close[0]
    ensures
      var clean := Strip(html, m);
      var k := Place(clean, bodyClose);
      Strip(Injected(html, sdk, bodyClose, m), m) == clean
      <==> !Contains(sdk, m.close) && (!Contains(clean[..k], m.open) || Stacked(clean, k, sdk, m))
  {
    hide Strip, Inserted, Contains, Marker, Stacked;
    var clean := Strip(html, m);
    StripInsertedIff(clean, Place(clean, bodyClose), sdk, m);
  }

  lemma StripUnmarked(html: string, m: Markers)
    requires !Contains(html, m.open)
    ensures Strip(html, m) == html
  {
    assert forall i :: !At(html, m.open, i);
  }

  lemma PrefixUnmarked(html: string, k: nat, m: string)
    requires k <= |html| && !Contains(html, m)
    ensures !Contains(html[..k], m)
  {
    hide At;
    forall i ensures !At(html[..k], m, i) {
      if At(html[..k], m, i) { AtInWhole(html, k, m, i); }
    }
  }

  /**
   What an injection writes, line by line, and where: before the closing body tag, if
   one is found within the page, and at the end otherwise.
   */
  lemma InjectedIs(html: string, sdk: string, bodyClose: string -> Option<nat>, m: Markers)
    ensures
      var clean := Strip(html, m);
      var k := match bodyClose(clean) case Some(at) => if at < |clean| then at else |clean| case None => |clean|;
      Injected(html, sdk, bodyClose, m) ==
      clean[..k] + m.open + "\n" + m.before + "\n" + sdk + "\n" + m.after + "\n" + m.close + "\n" + clean[k..]
  {
    hide Strip;
    var clean := Strip(html, m);
    var k := Place(clean, bodyClose);
    var nl := [NEWLINE];
    assert nl == "\n";
    Lines(clean[..k], clean[k..], sdk, m);
  }

  lemma Lines(front: string, back: string, sdk: string, m: Markers)
    ensures front + (Block(sdk, m) + ([NEWLINE] + back)) ==
      front + m.open + "\n" + m.before + "\n" + sdk + "\n" + m.after + "\n" + m.close + "\n" + back
  {
    var tail := m.after + [NEWLINE];
    Rejoined(front, Block(sdk, m), [NEWLINE] + back);
    assert "\n" == [NEWLINE];
    assert Block(sdk, m) == m.open + "\n" + m.before + "\n" + sdk + "\n" + m.after + "\n" + m.close;
  }

  /** A page that never held a block comes back itself, exactly when the script has no end marker. */
  lemma StripInjectedFresh(html: string, sdk: string, bodyClose: string -> Option<nat>, m: Markers)
    requires Sound(m) && !Contains(html, m.open)
    ensures Strip(Injected(html, sdk, bodyClose, m), m) == html <==> !Contains(sdk, m.close)
  {
    hide Strip, Inserted, Contains, Marker;
    StripUnmarked(html, m);
    PrefixUnmarked(html, Place(html, bodyClose), m.open);
    StripUnmarkedBefore(html, Place(html, bodyClose), sdk, m);
  }

  /** Injecting again replaces the block instead of stacking a second one. */
  lemma InjectReplaces(html: string, first: string, second: string, bodyClose: string -> Option<nat>, m: Markers)
    requires Sound(m) && !Contains(first, m.close)
    requires !Contains(Strip(html, m)[..Place(Strip(html, m), bodyClose)], m.open)
    ensures Injected(Injected(html, first, bodyClose, m), second, bodyClose, m) == Injected(html, second, bodyClose, m)
  {
    hide Strip, Inserted, Contains, Marker;
    var clean := Strip(html, m);
    StripUnmarkedBefore(clean, Place(clean, bodyClose), first, m);
  }

  // ---------------------------------------------------------------------------
  // The bridge's own markers
  // ---------------------------------------------------------------------------

  /** Between the opening angle bracket and the word that tells the markers apart. */
  const TAG := "!-- red:browser-bridge:"

  const BRIDGE := Markers("<" + TAG + "begin -->", "<" + TAG + "end -->", "<script>", "</script>")

  ghost predicate Lacks(s: string, c: char) {
    forall i :: 0 <= i < |s| ==> s[i] != c
  }

  lemma TagLacks()
    ensures Lacks(TAG, '<') && Lacks(TAG, NEWLINE)
  {
  }

  lemma MarkerFrom(tag: string, word: string)
    requires Lacks(tag, '<') && Lacks(tag, NEWLINE) && Lacks(word, '<') && Lacks(word, NEWLINE)
    ensures Marker("<" + tag + word)
  {
  }

  lemma BeginMarker()
    ensures Marker(BRIDGE.open)
  {
    hide Marker, TAG;
    TagLacks();
    MarkerFrom(TAG, "begin -->");
  }

  lemma EndMarker()
    ensures Marker(BRIDGE.close)
  {
    hide Marker, TAG;
    TagLacks();
    MarkerFrom(TAG, "end -->");
  }

  /** Both start with the bracket and the tag; then one says begin and the other end. */
  lemma EndNotInBegin(i: int)
    ensures !At(BRIDGE.open, BRIDGE.close, i)
  {
    hide TAG;
    BeginMarker();
    if At(BRIDGE.open, BRIDGE.close, i) {
      AtChar(BRIDGE.open, BRIDGE.close, i, 0);
      AtChar(BRIDGE.open, BRIDGE.close, i, 1 + |TAG|);
    }
  }

  lemma BridgeMarkersSound()
    ensures Sound(BRIDGE) && BRIDGE.open[0] == BRIDGE.close[0]
  {
    hide Marker;
    BeginMarker();
    EndMarker();
    forall i ensures !At(BRIDGE.open, BRIDGE.close, i) {
      EndNotInBegin(i);
    }
  }

  /** A page that already holds a stray begin marker does not survive the round trip. */
  lemma StrayMarkerIsLost(sdk: string, m: Markers)
    requires Sound(m) && m.open[0] == m.close[0] && !Contains(sdk, m.close)
    ensures
      var html := m.open;
      Strip(Injected(html, sdk, _ => None, m), m) == [] && html != []
  {
    var html := m.open;
    assert At(html, m.open, 0);
    assert Strip(html, m) == html;
    var s := Inserted(html, |html|, sdk, m);
    assert Injected(html, sdk, _ => None, m) == s;
    assert s[0..|html|] == html;
    assert At(s, m.open, 0);
    StrayEnd(sdk, m);
  }

  lemma StrayEnd(sdk: string, m: Markers)
    requires Sound(m) && m.open[0] == m.close[0] && !Contains(sdk, m.close)
    ensures
      var s := Inserted(m.open, |m.open|, sdk, m);
      IndexOf(s, m.close, 0) == Some(|m.open| + |Prelude(sdk, m)|)
  {
    hide IndexOf, At;
    var html := m.open;
    var s := Inserted(html, |html|, sdk, m);
    var end := FindsEnd(html, |html|, sdk, m);
    var rest := Block(sdk, m) + ([NEWLINE] + html[|html|..]);
    assert s == html + rest;
    forall i | 0 <= i < |html| ensures !At(s, m.close, i) {
      if At(s, m.close, i) {
        NoStraddle(html, rest, m.close, i);
      }
    }
  }

}
