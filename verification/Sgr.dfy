/**
 Coloured text: a string with SGR escapes (section 8.3.117 of ECMA-48), the width
 a terminal draws, and the cut that fits a line into a width.

 A string stands for its code points.
 */
module Sgr {
  const ESC: char := '\U{1B}'
  const ELLIPSIS: char := '\U{2026}'
  const RESET: string := [ESC, '[', '0', 'm']

  datatype Token = Escape(params: string) | Shown(glyph: char)

  predicate IsParam(c: char) {
    '0' <= c <= '9' || c == ';'
  }

  lemma IsParamIff(c: char)
    ensures IsParam(c) <==> c in "0123456789;"
  {
    if '0' <= c <= '9' { assert "0123456789;"[c as int - '0' as int] == c; }
    assert "0123456789;"[10] == ';';
  }

  /** How many parameter characters the text starts with. */
  function Run(s: string): (n: nat)
    ensures n <= |s|
    ensures forall i :: 0 <= i < n ==> IsParam(s[i])
    ensures n < |s| ==> !IsParam(s[n])
  {
    if s != [] && IsParam(s[0]) then 1 + Run(s[1..]) else 0
  }

  /** The length of the escape the text starts with, or 0. */
  function EscapeLength(s: string): (n: nat)
    ensures n <= |s| && (n == 0 || n >= 3)
  {
    if |s| >= 3 && s[0] == ESC && s[1] == '[' then
      var n := Run(s[2..]);
      if 2 + n < |s| && s[2 + n] == 'm' then n + 3 else 0
    else 0
  }

  /** Whole escapes and single characters, left to right. */
  function Tokens(s: string): seq<Token>
    decreases |s|
  {
    if s == [] then []
    else
      var n := EscapeLength(s);
      if n > 0 then [Escape(s[2..n - 1])] + Tokens(s[n..]) else [Shown(s[0])] + Tokens(s[1..])
  }

  function Text(t: Token): string {
    match t
    case Escape(params) => [ESC, '['] + params + ['m']
    case Shown(glyph) => [glyph]
  }

  function Flatten(ts: seq<Token>): string {
    if ts == [] then [] else Text(ts[0]) + Flatten(ts[1..])
  }

  function Glyphs(ts: seq<Token>): string {
    if ts == [] then []
    else if ts[0].Shown? then [ts[0].glyph] + Glyphs(ts[1..])
    else Glyphs(ts[1..])
  }

  /** The text with its colour removed. */
  function Visible(s: string): string {
    Glyphs(Tokens(s))
  }

  function Width(s: string): nat {
    |Visible(s)|
  }

  // ---------------------------------------------------------------------------
  // Splitting and joining
  // ---------------------------------------------------------------------------

  /** A text that can neither complete nor continue an escape begun before it. */
  predicate Breaks(s: string) {
    s == [] || !(IsParam(s[0]) || s[0] == 'm' || s[0] == '[')
  }

  lemma EscapeText(s: string)
    requires EscapeLength(s) > 0
    ensures Text(Escape(s[2..EscapeLength(s) - 1])) == s[..EscapeLength(s)]
  {
    hide Run;
  }

  /** How many characters the first token takes. */
  function FirstLength(s: string): (n: nat)
    requires s != []
    ensures 1 <= n <= |s|
  {
    if EscapeLength(s) > 0 then EscapeLength(s) else 1
  }

  lemma FirstToken(s: string)
    requires s != []
    ensures Tokens(s) != []
      && Tokens(s)[0] == if EscapeLength(s) > 0 then Escape(s[2..EscapeLength(s) - 1]) else Shown(s[0])
    ensures Tokens(s) == [Tokens(s)[0]] + Tokens(s[FirstLength(s)..])
    ensures Text(Tokens(s)[0]) == s[..FirstLength(s)]
  {
    hide EscapeLength;
    if EscapeLength(s) > 0 { EscapeText(s); }
  }

  lemma {:induction false} FlattenTokens(s: string)
    ensures Flatten(Tokens(s)) == s
    decreases |s|
  {
    hide Tokens, FirstLength, Text;
    if s != [] {
      var n := FirstLength(s);
      FirstToken(s);
      FlattenTokens(s[n..]);
      assert s == s[..n] + s[n..];
    } else {
      NoTokens();
    }
  }

  lemma NoTokens()
    ensures Tokens([]) == []
  {
  }

  lemma {:induction false} RunAppend(s: string, u: string)
    requires u == [] || !IsParam(u[0]) || Run(s) < |s|
    ensures Run(s + u) == Run(s)
  {
    if s == [] {
      assert s + u == u;
    } else if IsParam(s[0]) {
      RunAppend(s[1..], u);
      assert (s + u)[1..] == s[1..] + u;
    }
  }

  lemma EscapeAppend(s: string, u: string)
    requires s != [] && Breaks(u)
    ensures EscapeLength(s + u) == EscapeLength(s)
  {
    var all := s + u;
    if |s| >= 2 {
      assert all[2..] == s[2..] + u;
      RunAppend(s[2..], u);
    }
  }

  /** An escape that ends inside the text does not depend on what follows. */
  lemma EscapeGrows(s: string, u: string)
    requires EscapeLength(s) > 0
    ensures EscapeLength(s + u) == EscapeLength(s)
  {
    assert (s + u)[2..] == s[2..] + u;
    RunAppend(s[2..], u);
  }

  /** Text that breaks is read the same on its own as after any other text. */
  lemma {:induction false} TokensAppend(s: string, u: string)
    requires Breaks(u)
    ensures Tokens(s + u) == Tokens(s) + Tokens(u)
    decreases |s|
  {
    hide Tokens, EscapeLength, Text, Breaks;
    NoTokens();
    if s == [] {
      assert s + u == u;
    } else {
      EscapeAppend(s, u);
      var n := FirstLength(s);
      FirstToken(s);
      FirstToken(s + u);
      assert EscapeLength(s) > 0 ==> (s + u)[2..n - 1] == s[2..n - 1];
      assert (s + u)[n..] == s[n..] + u;
      TokensAppend(s[n..], u);
    }
  }

  predicate AllParams(s: string) {
    forall i :: 0 <= i < |s| ==> IsParam(s[i])
  }

  lemma {:induction false} RunOfParams(params: string, u: string)
    requires AllParams(params) && u != [] && !IsParam(u[0])
    ensures Run(params + u) == |params|
  {
    if params == [] {
      assert params + u == u;
    } else {
      RunOfParams(params[1..], u);
      assert (params + u)[1..] == params[1..] + u;
    }
  }

  /** A whole escape in front is one token, whatever follows. */
  lemma TokensEscape(params: string, u: string)
    requires AllParams(params)
    ensures Tokens(Text(Escape(params)) + u) == [Escape(params)] + Tokens(u)
  {
    var s := Text(Escape(params)) + u;
    assert s[2..] == params + (['m'] + u);
    RunOfParams(params, ['m'] + u);
    var n := |params| + 3;
    assert EscapeLength(s) == n;
    assert s[n..] == u && s[2..n - 1] == params;
  }

  lemma EscapeParams(s: string)
    requires EscapeLength(s) > 0
    ensures AllParams(s[2..EscapeLength(s) - 1])
  {
    var n := EscapeLength(s);
    assert s[2..n - 1] == s[2..][..n - 3];
  }

  /** Cutting after any number of tokens leaves exactly those tokens. */
  lemma {:induction false} PrefixTokens(s: string, k: nat)
    requires k <= |Tokens(s)|
    ensures Tokens(Flatten(Tokens(s)[..k])) == Tokens(s)[..k]
    decreases |s|
  {
    hide Tokens, EscapeLength;
    NoTokens();
    if k > 0 {
      assert s != [];
      FirstToken(s);
      var n := EscapeLength(s);
      var rest := s[FirstLength(s)..];
      PrefixTokens(rest, k - 1);
      var tail := Flatten(Tokens(rest)[..k - 1]);
      assert Tokens(s)[..k] == [Tokens(s)[0]] + Tokens(rest)[..k - 1];
      assert Flatten(Tokens(s)[..k]) == Text(Tokens(s)[0]) + tail;
      if n > 0 {
        EscapeParams(s);
        TokensEscape(s[2..n - 1], tail);
      } else {
        PrefixStart(s, tail, k);
      }
    }
  }

  /** A prefix of the text starts no escape that the text did not start. */
  lemma PrefixStart(s: string, tail: string, k: nat)
    requires s != [] && EscapeLength(s) == 0 && 0 < k <= |Tokens(s)| && tail == Flatten(Tokens(s[1..])[..k - 1])
    ensures Tokens([s[0]] + tail) == [Shown(s[0])] + Tokens(tail)
  {
    hide Tokens, EscapeLength, Flatten;
    FirstToken(s);
    FlattenTokens(s[1..]);
    FlattenSplit(Tokens(s[1..]), k - 1);
    var p, q := [s[0]] + tail, Flatten(Tokens(s[1..])[k - 1..]);
    assert s == p + q;
    if EscapeLength(p) > 0 {
      EscapeGrows(p, q);
    } else {
      FirstToken(p);
      assert p[1..] == tail;
    }
  }

  lemma {:induction false} FlattenSplit(ts: seq<Token>, k: nat)
    requires k <= |ts|
    ensures Flatten(ts) == Flatten(ts[..k]) + Flatten(ts[k..])
  {
    hide Text;
    if k == 0 {
      assert ts[..0] == [] && ts[0..] == ts;
    } else {
      FlattenSplit(ts[1..], k - 1);
      var front, back := ts[1..][..k - 1], ts[k..];
      assert ts[..k][1..] == front && ts[1..][k - 1..] == back;
      assert Flatten(ts[..k]) == Text(ts[0]) + Flatten(front);
      Rejoined(Text(ts[0]), Flatten(front), Flatten(back));
    }
  }

  lemma Rejoined(a: string, b: string, c: string)
    ensures a + b + c == a + (b + c)
  {
  }

  // ---------------------------------------------------------------------------
  // Resets
  // ---------------------------------------------------------------------------

  datatype Pieces = Pieces(done: seq<string>, last: string)

  /** The parameters between semicolons; the last one is still open. */
  function Split(params: string): Pieces {
    if params == [] then Pieces([], [])
    else
      var p, c := Split(params[..|params| - 1]), params[|params| - 1];
      if c == ';' then Pieces(p.done + [p.last], []) else Pieces(p.done, p.last + [c])
  }

  function Value(digits: string): nat
    requires forall i :: 0 <= i < |digits| ==> '0' <= digits[i] <= '9'
  {
    if digits == [] then 0
    else 10 * Value(digits[..|digits| - 1]) + (digits[|digits| - 1] as int - '0' as int)
  }

  predicate IsNumber(s: string) {
    forall i :: 0 <= i < |s| ==> '0' <= s[i] <= '9'
  }

  predicate IsZero(piece: string) {
    piece == [] || (IsNumber(piece) && Value(piece) == 0)
  }

  /** Every parameter is absent or numerically zero. */
  predicate IsReset(params: string) {
    var p := Split(params);
    IsZero(p.last) && forall i :: 0 <= i < |p.done| ==> IsZero(p.done[i])
  }

  lemma {:induction false} SplitNumbers(params: string)
    requires AllParams(params)
    ensures IsNumber(Split(params).last)
  {
    if params != [] { SplitNumbers(params[..|params| - 1]); }
  }

  lemma IsZeroGrows(piece: string, c: char)
    requires IsNumber(piece) && '0' <= c <= '9'
    ensures IsZero(piece + [c]) <==> IsZero(piece) && c == '0'
  {
    var grown := piece + [c];
    assert grown[..|grown| - 1] == piece;
    assert Value(grown) == 10 * Value(piece) + (c as int - '0' as int);
  }

  predicate ResetChars(params: string) {
    forall i :: 0 <= i < |params| ==> params[i] == '0' || params[i] == ';'
  }

  /** An escape resets exactly when it is written with zeros and semicolons only. */
  lemma {:induction false} IsResetIff(params: string)
    requires AllParams(params)
    ensures IsReset(params) <==> ResetChars(params)
  {
    if params != [] {
      var shorter, c := params[..|params| - 1], params[|params| - 1];
      IsResetIff(shorter);
      SplitNumbers(shorter);
      assert ResetChars(params) <==> ResetChars(shorter) && (c == '0' || c == ';');
      var p := Split(shorter);
      if c == ';' {
        var done := p.done + [p.last];
        assert (forall i :: 0 <= i < |done| ==> IsZero(done[i])) <==>
               IsZero(p.last) && forall i :: 0 <= i < |p.done| ==> IsZero(p.done[i]) by
        {
          assert done[|p.done|] == p.last;
          assert forall i :: 0 <= i < |p.done| ==> done[i] == p.done[i];
        }
      } else {
        IsZeroGrows(p.last, c);
      }
    }
  }

  // ---------------------------------------------------------------------------
  // Cutting
  // ---------------------------------------------------------------------------

  /** Whether the last escape leaves something open. */
  predicate Opened(ts: seq<Token>) {
    ts != [] && if ts[|ts| - 1].Escape? then !IsReset(ts[|ts| - 1].params) else Opened(ts[..|ts| - 1])
  }

  /** How many tokens are kept: up to the first character past the budget. */
  function Kept(ts: seq<Token>, budget: nat): (k: nat)
    ensures k <= |ts|
  {
    if ts == [] || (ts[0].Shown? && budget == 0) then 0
    else 1 + Kept(ts[1..], if ts[0].Shown? then budget - 1 else budget)
  }

  function CutText(kept: seq<Token>): string {
    Flatten(kept) + ([ELLIPSIS] + if Opened(kept) then RESET else [])
  }

  function Clamped(line: string, maxWidth: int): string {
    if maxWidth <= 0 then []
    else if Width(line) <= maxWidth then line
    else if maxWidth == 1 then [ELLIPSIS]
    else CutText(Tokens(line)[..Kept(Tokens(line), maxWidth - 1)])
  }

  lemma {:induction false} FlattenLast(ts: seq<Token>)
    requires ts != []
    ensures Flatten(ts) == Flatten(ts[..|ts| - 1]) + Text(ts[|ts| - 1])
  {
    FlattenSplit(ts, |ts| - 1);
    assert ts[|ts| - 1..] == [ts[|ts| - 1]];
    assert Flatten([ts[|ts| - 1]]) == Text(ts[|ts| - 1]) + [];
  }

  lemma PrefixStep(ts: seq<Token>, i: nat)
    requires i < |ts|
    ensures Flatten(ts[..i + 1]) == Flatten(ts[..i]) + Text(ts[i])
    ensures Opened(ts[..i + 1]) == if ts[i].Escape? then !IsReset(ts[i].params) else Opened(ts[..i])
  {
    var next := ts[..i + 1];
    assert next[..i] == ts[..i];
    FlattenLast(next);
  }

  lemma KeptStep(ts: seq<Token>, i: nat, budget: nat)
    requires i < |ts|
    ensures Kept(ts[i..], budget) ==
      if ts[i].Shown? && budget == 0 then 0
      else 1 + Kept(ts[i + 1..], if ts[i].Shown? then budget - 1 else budget)
  {
    assert ts[i..][1..] == ts[i + 1..];
  }

  /** The loop over the parts of the line, one token at a time. */
  method Clamp(line: string, maxWidth: int) returns (out: string)
    ensures out == Clamped(line, maxWidth)
  {
    hide Flatten, Opened, Kept, Tokens, Width, IsReset;
    if maxWidth <= 0 { return []; }
    if Width(line) <= maxWidth { return line; }
    if maxWidth == 1 { return [ELLIPSIS]; }
    var budget := maxWidth - 1;
    var ts := Tokens(line);
    var visible, unclosed, cut := 0, false, [];
    var i := 0;
    NothingKept(budget);
    assert ts[..0] == [] && ts[0..] == ts;
    while i < |ts|
      invariant 0 <= i <= |ts| && 0 <= visible <= budget
      invariant cut == Flatten(ts[..i]) && unclosed == Opened(ts[..i])
      invariant Kept(ts, budget) == i + Kept(ts[i..], budget - visible)
    {
      if ts[i].Shown? && visible == budget {
        KeptStep(ts, i, 0);
        return cut + ([ELLIPSIS] + if unclosed then RESET else []);
      }
      PrefixStep(ts, i);
      KeptStep(ts, i, budget - visible);
      cut := cut + Text(ts[i]);
      if ts[i].Escape? { unclosed := !IsReset(ts[i].params); } else { visible := visible + 1; }
      i := i + 1;
    }
    assert ts[..|ts|] == ts && ts[|ts|..] == [];
    NothingKept(budget - visible);
    return cut + ([ELLIPSIS] + if unclosed then RESET else []);
  }

  lemma NothingKept(budget: nat)
    ensures Kept([], budget) == 0 && Flatten([]) == [] && !Opened([])
  {
  }

  // ---------------------------------------------------------------------------
  // What the cut keeps
  // ---------------------------------------------------------------------------

  lemma {:induction false} GlyphsAppend(a: seq<Token>, b: seq<Token>)
    ensures Glyphs(a + b) == Glyphs(a) + Glyphs(b)
  {
    if a == [] {
      assert a + b == b;
    } else {
      assert (a + b)[1..] == a[1..] + b;
      GlyphsAppend(a[1..], b);
    }
  }

  /** The kept tokens show exactly the first characters of the budget. */
  lemma {:induction false} KeptGlyphs(ts: seq<Token>, budget: nat)
    requires budget < |Glyphs(ts)|
    ensures Glyphs(ts[..Kept(ts, budget)]) == Glyphs(ts)[..budget]
  {
    if !(ts[0].Shown? && budget == 0) {
      var rest := ts[1..];
      var k := Kept(ts, budget);
      assert ts[..k][1..] == rest[..k - 1];
      if ts[0].Shown? {
        KeptGlyphs(rest, budget - 1);
      } else {
        KeptGlyphs(rest, budget);
      }
    }
  }

  function Escapes(ts: seq<Token>): seq<string> {
    if ts == [] then []
    else if ts[|ts| - 1].Escape? then Escapes(ts[..|ts| - 1]) + [ts[|ts| - 1].params]
    else Escapes(ts[..|ts| - 1])
  }

  /** No escape at all, or a last one that resets. */
  predicate Closed(ts: seq<Token>) {
    Escapes(ts) == [] || IsReset(Escapes(ts)[|Escapes(ts)| - 1])
  }

  lemma {:induction false} OpenedIff(ts: seq<Token>)
    ensures Opened(ts) <==> !Closed(ts)
  {
    if ts != [] && !ts[|ts| - 1].Escape? { OpenedIff(ts[..|ts| - 1]); }
  }

  function Tail(kept: seq<Token>): seq<Token> {
    if Opened(kept) then [Shown(ELLIPSIS), Escape("0")] else [Shown(ELLIPSIS)]
  }

  lemma TailTokens(kept: seq<Token>)
    ensures Tokens([ELLIPSIS] + if Opened(kept) then RESET else []) == Tail(kept)
    ensures Breaks([ELLIPSIS] + if Opened(kept) then RESET else [])
  {
    hide Opened;
    var s := [ELLIPSIS] + if Opened(kept) then RESET else [];
    NoTokens();
    assert EscapeLength(s) == 0;
    if Opened(kept) {
      assert s[1..] == RESET;
      assert Text(Escape("0")) + [] == RESET;
      TokensEscape("0", []);
    } else {
      assert s[1..] == [];
    }
  }

  lemma TailCloses(kept: seq<Token>)
    ensures Closed(kept + Tail(kept))
  {
    OpenedIff(kept);
    var all := kept + Tail(kept);
    if Opened(kept) {
      assert all[|all| - 1] == Escape("0");
    } else {
      assert all[..|all| - 1] == kept;
    }
  }

  /**
   A line that is cut keeps a prefix of its tokens, so that no escape is severed
   and none is formed; then come the ellipsis and, when something was left open, a
   reset. It shows the first characters of the line and is exactly as wide as allowed.
   */
  lemma ClampCuts(line: string, maxWidth: int)
    requires 2 <= maxWidth < Width(line)
    ensures
      var ts, out := Tokens(line), Clamped(line, maxWidth);
      var kept := ts[..Kept(ts, maxWidth - 1)];
      && Tokens(out) == kept + Tail(kept)
      && Visible(out) == Visible(line)[..maxWidth - 1] + [ELLIPSIS]
      && Width(out) == maxWidth
      && Closed(Tokens(out))
  {
    hide Tokens, Opened, Closed, Flatten, Breaks;
    var ts := Tokens(line);
    var k := Kept(ts, maxWidth - 1);
    var kept := ts[..k];
    PrefixTokens(line, k);
    TailTokens(kept);
    TokensAppend(Flatten(kept), [ELLIPSIS] + if Opened(kept) then RESET else []);
    TailCloses(kept);
    KeptGlyphs(ts, maxWidth - 1);
    GlyphsAppend(kept, Tail(kept));
    TailGlyphs(kept);
  }

  lemma TailGlyphs(kept: seq<Token>)
    ensures Glyphs(Tail(kept)) == [ELLIPSIS]
  {
    hide Opened;
    var tail := Tail(kept);
    assert Glyphs(tail[1..]) == [] by {
      if |tail| == 2 { assert tail[1..] == [Escape("0")] && tail[1..][1..] == []; }
    }
  }

  lemma EllipsisAlone()
    ensures Tokens([ELLIPSIS]) == [Shown(ELLIPSIS)] && Width([ELLIPSIS]) == 1
  {
    NoTokens();
    assert [ELLIPSIS][1..] == [];
    assert [Shown(ELLIPSIS)][1..] == [];
    assert Glyphs([Shown(ELLIPSIS)]) == [ELLIPSIS] + [];
  }

  /** Whatever the line and the width, the result fits. */
  lemma ClampFits(line: string, maxWidth: int)
    ensures Width(Clamped(line, maxWidth)) <= if maxWidth <= 0 then 0 else maxWidth
    ensures 0 < maxWidth && Width(line) <= maxWidth ==> Clamped(line, maxWidth) == line
    ensures 0 < maxWidth < Width(line) ==>
              Visible(Clamped(line, maxWidth)) == Visible(line)[..maxWidth - 1] + [ELLIPSIS]
              && Closed(Tokens(Clamped(line, maxWidth)))
  {
    hide Tokens, Kept, CutText, Closed;
    NoTokens();
    if 2 <= maxWidth < Width(line) {
      ClampCuts(line, maxWidth);
    } else if maxWidth == 1 && 1 < Width(line) {
      EllipsisAlone();
      ClosedEllipsis();
    }
  }

  lemma ClosedEllipsis()
    ensures Closed([Shown(ELLIPSIS)])
  {
    assert [Shown(ELLIPSIS)][..0] == [];
  }

  // ---------------------------------------------------------------------------
  // Padding
  // ---------------------------------------------------------------------------

  function Spaces(n: nat): (s: string)
    ensures |s| == n
  {
    seq(n, _ => ' ')
  }

  function Pad(text: string, target: int): string {
    text + if target > Width(text) then Spaces(target - Width(text)) else []
  }

  lemma WidthAppend(s: string, u: string)
    requires Breaks(u)
    ensures Visible(s + u) == Visible(s) + Visible(u) && Width(s + u) == Width(s) + Width(u)
  {
    hide Tokens, Breaks;
    TokensAppend(s, u);
    GlyphsAppend(Tokens(s), Tokens(u));
  }

  lemma {:induction false} SpacesShow(n: nat)
    ensures Visible(Spaces(n)) == Spaces(n)
  {
    if n > 0 {
      SpacesShow(n - 1);
      assert Spaces(n)[1..] == Spaces(n - 1);
      assert Spaces(n) == [' '] + Spaces(n - 1);
    }
  }

  /** Padding reaches the target and never cuts. */
  lemma PadWidth(text: string, target: int)
    ensures Width(Pad(text, target)) == if target > Width(text) then target else Width(text)
    ensures Visible(text) <= Visible(Pad(text, target))
  {
    hide Visible;
    if target > Width(text) {
      var n := target - Width(text);
      SpacesShow(n);
      WidthAppend(text, Spaces(n));
    } else {
      assert text + [] == text;
    }
  }
}
