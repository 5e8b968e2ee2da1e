/**
 The statusline: one head line, then one row per selected Worker.

 Cell text, head text, project text and log text are arbitrary strings; colouring
 is any function that adds escapes only.
 */
module Statusline {
  import opened Wrappers
  import opened Sgr

  datatype Column =
    | Wid | RunId | Org | Iss | Bar | Phase | Base | Elapsed | Eta | Hb | Loc | Tks | Ctx | Tls | Rsn | Txt

  const COLUMNS: seq<Column> :=
    [Wid, RunId, Org, Iss, Bar, Phase, Base, Elapsed, Eta, Hb, Loc, Tks, Ctx, Tls, Rsn, Txt]

  const DROP_ORDER: seq<Column> := [Txt, Rsn, Ctx, Tks, Tls, Eta, Base, Elapsed, RunId, Org, Loc]

  datatype Row = Row(cell: Column -> string)

  // ---------------------------------------------------------------------------
  // Widths
  // ---------------------------------------------------------------------------

  function Max(a: int, b: int): int {
    if a < b then b else a
  }

  /** The widest cell of a column. */
  function Widest(rows: seq<Row>, c: Column): nat {
    if rows == [] then 0 else Max(Widest(rows[..|rows| - 1], c), Width(rows[|rows| - 1].cell(c)))
  }

  function SumWidths(rows: seq<Row>, columns: seq<Column>): nat {
    if columns == [] then 0
    else SumWidths(rows, columns[..|columns| - 1]) + Widest(rows, columns[|columns| - 1])
  }

  function RowWidth(rows: seq<Row>, columns: seq<Column>): nat {
    SumWidths(rows, columns) + Max(0, |columns| - 1) * 2
  }

  lemma {:induction false} WidestBounds(rows: seq<Row>, c: Column, i: nat)
    requires i < |rows|
    ensures Width(rows[i].cell(c)) <= Widest(rows, c)
  {
    hide Width;
    if i < |rows| - 1 { WidestBounds(rows[..|rows| - 1], c, i); }
  }

  /** Some cell is as wide as its column, unless the column is empty. */
  lemma {:induction false} WidestIsReached(rows: seq<Row>, c: Column)
    ensures Widest(rows, c) == 0 || exists i :: 0 <= i < |rows| && Width(rows[i].cell(c)) == Widest(rows, c)
  {
    hide Width;
    if rows != [] {
      var init := rows[..|rows| - 1];
      WidestIsReached(init, c);
      if Widest(init, c) == Widest(rows, c) && Widest(rows, c) != 0 {
        var i :| 0 <= i < |init| && Width(init[i].cell(c)) == Widest(init, c);
        assert rows[i] == init[i];
      }
    }
  }

  // ---------------------------------------------------------------------------
  // Shedding columns
  // ---------------------------------------------------------------------------

  /** The columns without one of them, if it is there. */
  function Remove(columns: seq<Column>, c: Column): seq<Column> {
    if columns == [] then []
    else if columns[0] == c then columns[1..]
    else [columns[0]] + Remove(columns[1..], c)
  }

  /** The columns without the first `n` of the drop order. */
  function Without(columns: seq<Column>, n: nat): seq<Column>
    requires n <= |DROP_ORDER|
  {
    if n == 0 then columns else Remove(Without(columns, n - 1), DROP_ORDER[n - 1])
  }

  predicate TooWide(rows: seq<Row>, columns: seq<Column>, maxWidth: int) {
    |columns| > 1 && RowWidth(rows, columns) > maxWidth
  }

  /** The first point of the drop order, from `n` on, where the row fits or one column is left. */
  function DropPoint(rows: seq<Row>, columns: seq<Column>, maxWidth: int, n: nat): (k: nat)
    requires n <= |DROP_ORDER|
    ensures n <= k <= |DROP_ORDER|
    ensures forall j :: n <= j < k ==> TooWide(rows, Without(columns, j), maxWidth)
    ensures k < |DROP_ORDER| ==> !TooWide(rows, Without(columns, k), maxWidth)
    decreases |DROP_ORDER| - n
  {
    if n == |DROP_ORDER| || !TooWide(rows, Without(columns, n), maxWidth) then n
    else DropPoint(rows, columns, maxWidth, n + 1)
  }

  function PopWhile(rows: seq<Row>, columns: seq<Column>, maxWidth: int): (r: seq<Column>)
    ensures r <= columns && !TooWide(rows, r, maxWidth)
    ensures !TooWide(rows, columns, maxWidth) ==> r == columns
    ensures columns != [] ==> r != []
  {
    if TooWide(rows, columns, maxWidth) then PopWhile(rows, columns[..|columns| - 1], maxWidth) else columns
  }

  function Shed(rows: seq<Row>, columns: seq<Column>, maxWidth: int): seq<Column> {
    PopWhile(rows, Without(columns, DropPoint(rows, columns, maxWidth, 0)), maxWidth)
  }

  predicate Distinct(columns: seq<Column>) {
    forall i, j :: 0 <= i < j < |columns| ==> columns[i] != columns[j]
  }

  lemma {:induction false} RemoveHas(columns: seq<Column>, c: Column)
    requires Distinct(columns)
    ensures Distinct(Remove(columns, c))
    ensures forall x :: x in Remove(columns, c) <==> x in columns && x != c
  {
    if columns != [] {
      RemoveHas(columns[1..], c);
      assert columns == [columns[0]] + columns[1..];
      assert columns[0] !in columns[1..];
    }
  }

  predicate InOrder(c: Column, n: nat)
    requires n <= |DROP_ORDER|
  {
    exists i :: 0 <= i < n && DROP_ORDER[i] == c
  }

  lemma {:induction false} WithoutHas(columns: seq<Column>, n: nat)
    requires Distinct(columns) && n <= |DROP_ORDER|
    ensures Distinct(Without(columns, n))
    ensures forall x :: x in Without(columns, n) <==> x in columns && !InOrder(x, n)
  {
    if n > 0 {
      WithoutHas(columns, n - 1);
      RemoveHas(Without(columns, n - 1), DROP_ORDER[n - 1]);
      forall x ensures x in Without(columns, n) <==> x in columns && !InOrder(x, n) {
        assert InOrder(x, n) <==> InOrder(x, n - 1) || x == DROP_ORDER[n - 1];
      }
    }
  }

  predicate IsAnnotation(c: Column) {
    InOrder(c, |DROP_ORDER|)
  }

  lemma AnnotationsAre(c: Column)
    ensures IsAnnotation(c) <==> c in DROP_ORDER
  {
    hide DROP_ORDER;
  }

  /** The columns that only the positional fallback drops: the comment's four, and `bar`. */
  lemma FallbackColumns(c: Column)
    ensures !IsAnnotation(c) <==> c in [Wid, Iss, Bar, Phase, Hb]
  {
    hide IsAnnotation;
    AnnotationsAre(c);
  }

  /** Shedding ends with a row that fits or with one column. */
  lemma ShedFits(rows: seq<Row>, columns: seq<Column>, maxWidth: int)
    ensures |Shed(rows, columns, maxWidth)| <= 1 || RowWidth(rows, Shed(rows, columns, maxWidth)) <= maxWidth
    ensures !TooWide(rows, columns, maxWidth) ==> Shed(rows, columns, maxWidth) == columns
  {
    assert Without(columns, 0) == columns;
  }

  /** A column outside the drop order is lost only when no column of the drop order is left. */
  lemma ShedSparesIdentity(rows: seq<Row>, columns: seq<Column>, maxWidth: int, lost: Column, kept: Column)
    requires Distinct(columns)
    requires lost in columns && !IsAnnotation(lost) && lost !in Shed(rows, columns, maxWidth)
    requires kept in Shed(rows, columns, maxWidth)
    ensures !IsAnnotation(kept)
  {
    hide RowWidth;
    var k := DropPoint(rows, columns, maxWidth, 0);
    WithoutHas(columns, k);
    assert InOrder(lost, k) ==> IsAnnotation(lost);
    assert lost in Without(columns, k);
    assert k == |DROP_ORDER|;
  }

  /** What is kept was there, without repetition, and each dropped annotation was needed. */
  lemma ShedDropsInOrder(rows: seq<Row>, columns: seq<Column>, maxWidth: int, i: nat)
    requires Distinct(columns) && i < |DROP_ORDER| && DROP_ORDER[i] in columns
    requires DROP_ORDER[i] !in Shed(rows, columns, maxWidth)
    ensures TooWide(rows, Without(columns, i), maxWidth)
    ensures forall x :: x in Shed(rows, columns, maxWidth) ==> x in columns && !InOrder(x, i)
  {
    hide RowWidth;
    var k := DropPoint(rows, columns, maxWidth, 0);
    WithoutHas(columns, k);
    DropOrderOnce();
    assert InOrder(DROP_ORDER[i], k) ==> i < k;
    assert i < k;
    forall x | x in Shed(rows, columns, maxWidth) ensures x in columns && !InOrder(x, i) {
      assert x in Without(columns, k);
      assert !InOrder(x, k);
    }
  }

  lemma DropOrderOnce()
    ensures Distinct(DROP_ORDER)
  {
  }

  // ---------------------------------------------------------------------------
  // The loops
  // ---------------------------------------------------------------------------

  function WidthOf(widths: map<Column, nat>, c: Column): nat {
    if c in widths then widths[c] else 0
  }

  /** The widths of the given columns, row by row. */
  method WorkerWidths(rows: seq<Row>, columns: seq<Column>) returns (widths: map<Column, nat>)
    ensures forall c :: c in columns ==> WidthOf(widths, c) == Widest(rows, c)
    ensures forall c :: c !in columns ==> WidthOf(widths, c) == 0
  {
    hide Width;
    widths := map[];
    for i := 0 to |rows|
      invariant forall c :: c in columns ==> WidthOf(widths, c) == Widest(rows[..i], c)
      invariant forall c :: c !in columns ==> WidthOf(widths, c) == 0
    {
      assert rows[..i + 1][..i] == rows[..i];
      ghost var before := widths;
      for j := 0 to |columns|
        invariant forall c :: c in columns[..j] ==> WidthOf(widths, c) == Widest(rows[..i + 1], c)
        invariant forall c :: c !in columns[..j] ==> WidthOf(widths, c) == WidthOf(before, c)
      {
        var c := columns[j];
        assert columns[..j + 1] == columns[..j] + [c];
        widths := widths[c := Max(WidthOf(widths, c), Width(rows[i].cell(c)))];
      }
      assert columns[..|columns|] == columns;
    }
    assert rows[..|rows|] == rows;
  }

  method MeasureRow(widths: map<Column, nat>, columns: seq<Column>, ghost rows: seq<Row>) returns (total: nat)
    requires forall c :: c in columns ==> WidthOf(widths, c) == Widest(rows, c)
    ensures total == RowWidth(rows, columns)
  {
    hide Widest;
    total := 0;
    for i := 0 to |columns|
      invariant total == SumWidths(rows, columns[..i])
    {
      assert columns[..i + 1][..i] == columns[..i];
      total := total + WidthOf(widths, columns[i]);
    }
    assert columns[..|columns|] == columns;
    total := total + Max(0, |columns| - 1) * 2;
  }

  method IsTooWide(rows: seq<Row>, columns: seq<Column>, maxWidth: int) returns (tooWide: bool)
    ensures tooWide == TooWide(rows, columns, maxWidth)
  {
    var widths := WorkerWidths(rows, columns);
    var total := MeasureRow(widths, columns, rows);
    tooWide := |columns| > 1 && total > maxWidth;
  }

  /** Both shedding loops: by the drop order, then from the right. */
  method ShedColumns(rows: seq<Row>, populated: seq<Column>, maxWidth: int) returns (columns: seq<Column>)
    ensures columns == Shed(rows, populated, maxWidth)
  {
    hide RowWidth, TooWide, Remove;
    columns := populated;
    var k := 0;
    var tooWide := IsTooWide(rows, columns, maxWidth);
    while k < |DROP_ORDER| && tooWide
      invariant 0 <= k <= |DROP_ORDER| && columns == Without(populated, k)
      invariant tooWide == TooWide(rows, columns, maxWidth)
      invariant DropPoint(rows, populated, maxWidth, 0) == DropPoint(rows, populated, maxWidth, k)
    {
      columns := Remove(columns, DROP_ORDER[k]);
      k := k + 1;
      tooWide := IsTooWide(rows, columns, maxWidth);
    }
    ghost var dropped := columns;
    while tooWide
      invariant tooWide == TooWide(rows, columns, maxWidth)
      invariant PopWhile(rows, dropped, maxWidth) == PopWhile(rows, columns, maxWidth)
      decreases |columns|
    {
      columns := columns[..|columns| - 1];
      tooWide := IsTooWide(rows, columns, maxWidth);
    }
  }

  // ---------------------------------------------------------------------------
  // One Worker's row
  // ---------------------------------------------------------------------------

  /** The escapes that open a row, and the colouring of one cell. */
  datatype Paint = Paint(ground: string, tone: string, colour: (Column, string) -> string)

  const GUTTER := "  "

  /** Colouring adds escapes only. */
  ghost predicate Faithful(p: Paint) {
    && AllParams(p.ground) && AllParams(p.tone)
    && forall c, text :: Visible(p.colour(c, text)) == Visible(text)
  }

  function Part(p: Paint, rows: seq<Row>, row: Row, c: Column): string {
    p.colour(c, Pad(row.cell(c), Widest(rows, c)))
  }

  function Joined(p: Paint, rows: seq<Row>, row: Row, columns: seq<Column>): string {
    if columns == [] then []
    else
      var last := Part(p, rows, row, columns[|columns| - 1]);
      if |columns| == 1 then last else Joined(p, rows, row, columns[..|columns| - 1]) + (GUTTER + last)
  }

  function FullRow(p: Paint, rows: seq<Row>, row: Row, columns: seq<Column>): string {
    Text(Escape(p.ground)) + (Text(Escape(p.tone)) + (Joined(p, rows, row, columns) + RESET))
  }

  function RenderedRow(p: Paint, rows: seq<Row>, row: Row, columns: seq<Column>, maxWidth: int): string {
    Clamped(FullRow(p, rows, row, columns), maxWidth)
  }

  lemma ShownFirst(c: char, s: string)
    requires c != ESC
    ensures Visible([c] + s) == [c] + Visible(s)
  {
    assert ([c] + s)[1..] == s;
    assert EscapeLength([c] + s) == 0;
    FirstToken([c] + s);
  }

  lemma GutterWidth(s: string)
    ensures Breaks(GUTTER + s) && Width(GUTTER + s) == 2 + Width(s)
  {
    hide Visible;
    ShownFirst(' ', s);
    ShownFirst(' ', [' '] + s);
    assert GUTTER + s == [' '] + ([' '] + s);
  }

  lemma EscapeWidth(params: string, s: string)
    requires AllParams(params)
    ensures Width(Text(Escape(params)) + s) == Width(s)
  {
    hide Tokens, Text;
    TokensEscape(params, s);
    GlyphsAppend([Escape(params)], Tokens(s));
    assert [Escape(params)][1..] == [];
  }

  lemma ResetWidth(s: string)
    ensures Width(s + RESET) == Width(s)
  {
    hide Visible;
    assert RESET == Text(Escape("0")) + [];
    EscapeWidth("0", []);
    NothingShown();
    WidthAppend(s, RESET);
  }

  lemma NothingShown()
    ensures Width([]) == 0
  {
  }

  lemma PartWidth(p: Paint, rows: seq<Row>, i: nat, c: Column)
    requires Faithful(p) && i < |rows|
    ensures Width(Part(p, rows, rows[i], c)) == Widest(rows, c)
  {
    hide Visible, Pad, Widest;
    WidestBounds(rows, c, i);
    PadWidth(rows[i].cell(c), Widest(rows, c));
  }

  lemma {:induction false} JoinedWidth(p: Paint, rows: seq<Row>, i: nat, columns: seq<Column>)
    requires Faithful(p) && i < |rows|
    ensures Width(Joined(p, rows, rows[i], columns)) == RowWidth(rows, columns)
  {
    hide Visible, Width, Part, Faithful, Widest, Breaks;
    NothingShown();
    if columns != [] {
      var c := columns[|columns| - 1];
      PartWidth(p, rows, i, c);
      if |columns| > 1 {
        var shorter := columns[..|columns| - 1];
        JoinedWidth(p, rows, i, shorter);
        var last := Part(p, rows, rows[i], c);
        GutterWidth(last);
        WidthAppend(Joined(p, rows, rows[i], shorter), GUTTER + last);
      } else {
        assert columns[..0] == [];
        assert SumWidths(rows, columns[..0]) == 0;
      }
    }
  }

  /** A row is exactly as wide as the column widths say, so a row that fits is never cut. */
  lemma RowFitsUncut(p: Paint, rows: seq<Row>, i: nat, columns: seq<Column>, maxWidth: int)
    requires Faithful(p) && i < |rows|
    ensures Width(FullRow(p, rows, rows[i], columns)) == RowWidth(rows, columns)
    ensures 0 < maxWidth && RowWidth(rows, columns) <= maxWidth ==>
              RenderedRow(p, rows, rows[i], columns, maxWidth) == FullRow(p, rows, rows[i], columns)
  {
    hide Width, Joined, RowWidth, Text;
    var joined := Joined(p, rows, rows[i], columns);
    JoinedWidth(p, rows, i, columns);
    ResetWidth(joined);
    EscapeWidth(p.tone, joined + RESET);
    EscapeWidth(p.ground, Text(Escape(p.tone)) + (joined + RESET));
  }

  // ---------------------------------------------------------------------------
  // The whole statusline
  // ---------------------------------------------------------------------------

  datatype Mode = Local | Global

  /** `log` is the Worker's composed log line, when it has logged anything. */
  datatype Worker = Worker(project: string, row: Row, log: Option<string>)

  datatype Project = Project(name: string, text: string)

  datatype Options = Options(
    mode: Mode,
    project: Option<string>,
    maxWorkers: int,
    maxProjects: int,
    maxWidth: int,
    separator: string,
    verbose: bool)

  datatype Detail = Workers | Projects | Host

  datatype Rendered = Rendered(lines: seq<string>, detail: Detail, degraded: bool)

  function OwnWorkers(workers: seq<Worker>, project: string): seq<Worker> {
    if workers == [] then []
    else
      var rest := OwnWorkers(workers[..|workers| - 1], project);
      if workers[|workers| - 1].project == project then rest + [workers[|workers| - 1]] else rest
  }

  function SelectWorkers(workers: seq<Worker>, o: Options): seq<Worker> {
    if o.mode.Global? then workers else if o.project.None? then [] else OwnWorkers(workers, o.project.value)
  }

  function OwnProjects(projects: seq<Project>, project: Option<string>): seq<Project> {
    if projects == [] then []
    else
      var rest := OwnProjects(projects[..|projects| - 1], project);
      if Some(projects[|projects| - 1].name) == project then rest + [projects[|projects| - 1]] else rest
  }

  function SelectProjects(projects: seq<Project>, o: Options): seq<Project> {
    if o.mode.Global? then projects else OwnProjects(projects, o.project)
  }

  /** A detail whose count budget is not blown; the host always is one. */
  predicate Allowed(detail: Detail, o: Options, workers: seq<Worker>, projects: seq<Project>) {
    match detail
    case Workers => 0 < |workers| <= o.maxWorkers
    case Projects => o.mode.Global? && 0 < |projects| <= o.maxProjects
    case Host => true
  }

  function Richness(detail: Detail): nat {
    match detail
    case Workers => 2
    case Projects => 1
    case Host => 0
  }

  /** Exactly the allowed details, each once, richest first. */
  predicate IsLadder(ladder: seq<Detail>, o: Options, workers: seq<Worker>, projects: seq<Project>) {
    && (forall detail :: detail in ladder <==> Allowed(detail, o, workers, projects))
    && (forall i, j :: 0 <= i < j < |ladder| ==> Richness(ladder[i]) > Richness(ladder[j]))
  }

  method DetailLadder(o: Options, workers: seq<Worker>, projects: seq<Project>) returns (ladder: seq<Detail>)
    ensures IsLadder(ladder, o, workers, projects)
    ensures ladder != [] && ladder[|ladder| - 1] == Host
  {
    ladder := [];
    if 0 < |workers| <= o.maxWorkers { ladder := ladder + [Workers]; }
    if o.mode.Global? && 0 < |projects| <= o.maxProjects { ladder := ladder + [Projects]; }
    ladder := ladder + [Host];
  }

  function Ladder(o: Options, workers: seq<Worker>, projects: seq<Project>): seq<Detail> {
    (if 0 < |workers| <= o.maxWorkers then [Workers] else []) +
    (if o.mode.Global? && 0 < |projects| <= o.maxProjects then [Projects] else []) +
    [Host]
  }

  /** There is only one such ladder. */
  lemma LadderUnique(ladder: seq<Detail>, o: Options, workers: seq<Worker>, projects: seq<Project>)
    ensures IsLadder(ladder, o, workers, projects) <==> ladder == Ladder(o, workers, projects)
  {
    var spec := Ladder(o, workers, projects);
    assert Workers in spec <==> Allowed(Workers, o, workers, projects);
    assert Projects in spec <==> Allowed(Projects, o, workers, projects);
    assert spec[|spec| - 1] == Host;
    assert IsLadder(spec, o, workers, projects);
    if IsLadder(ladder, o, workers, projects) {
      SameDetails(ladder, spec);
    }
  }

  /** Two details of equal richness are the same, so richest first leaves one order. */
  lemma {:induction false} SameDetails(a: seq<Detail>, b: seq<Detail>)
    requires forall detail :: detail in a <==> detail in b
    requires forall i, j :: 0 <= i < j < |a| ==> Richness(a[i]) > Richness(a[j])
    requires forall i, j :: 0 <= i < j < |b| ==> Richness(b[i]) > Richness(b[j])
    ensures a == b
  {
    assert b != [] ==> b[0] in b;
    if a != [] {
      assert a[0] in b;
      assert b[0] in a;
      assert a[0] == b[0];
      forall detail ensures detail in a[1..] <==> detail in b[1..] {
        TailHas(a, detail);
        TailHas(b, detail);
      }
      SameDetails(a[1..], b[1..]);
      assert a == [a[0]] + a[1..] && b == [b[0]] + b[1..];
    }
  }

  lemma TailHas(a: seq<Detail>, detail: Detail)
    requires a != [] && forall i, j :: 0 <= i < j < |a| ==> Richness(a[i]) > Richness(a[j])
    ensures detail in a[1..] <==> detail in a && detail != a[0]
  {
    assert a == [a[0]] + a[1..];
    assert forall i :: 0 <= i < |a[1..]| ==> a[1..][i] == a[i + 1];
  }

  function Compose(head: string, projects: seq<Project>, separator: string): string {
    if projects == [] then head
    else Compose(head, projects[..|projects| - 1], separator) + separator + projects[|projects| - 1].text
  }

  function LineAt(head: string, projects: seq<Project>, o: Options, detail: Detail): string {
    if detail.Projects? then Compose(head, projects, o.separator) else head
  }

  /** The first detail whose line fits, Worker detail without asking, and the last one otherwise. */
  function Choose(ladder: seq<Detail>, head: string, projects: seq<Project>, o: Options): Detail {
    if ladder == [] then Host
    else if |ladder| == 1 || ladder[0].Workers? || Width(LineAt(head, projects, o, ladder[0])) <= o.maxWidth
    then ladder[0]
    else Choose(ladder[1..], head, projects, o)
  }

  method ChooseDetail(ladder: seq<Detail>, head: string, projects: seq<Project>, o: Options)
    returns (detail: Detail, line: string)
    requires ladder != []
    ensures detail == Choose(ladder, head, projects, o) && line == LineAt(head, projects, o, detail)
  {
    hide Width, Compose;
    detail, line := Host, head;
    var i := 0;
    while i < |ladder|
      invariant 0 <= i <= |ladder| && line == LineAt(head, projects, o, detail)
      invariant i < |ladder| ==> Choose(ladder, head, projects, o) == Choose(ladder[i..], head, projects, o)
      invariant i == |ladder| ==> Choose(ladder, head, projects, o) == detail
    {
      detail := ladder[i];
      line := LineAt(head, projects, o, detail);
      if detail.Workers? || Width(line) <= o.maxWidth { return; }
      assert ladder[i..][1..] == ladder[i + 1..];
      i := i + 1;
    }
  }

  function RowsOf(workers: seq<Worker>): seq<Row> {
    seq(|workers|, i requires 0 <= i < |workers| => workers[i].row)
  }

  predicate Populated(rows: seq<Row>, c: Column) {
    exists i :: 0 <= i < |rows| && Width(rows[i].cell(c)) > 0
  }

  function PopulatedOf(rows: seq<Row>, columns: seq<Column>): seq<Column> {
    if columns == [] then []
    else
      var rest := PopulatedOf(rows, columns[..|columns| - 1]);
      if Populated(rows, columns[|columns| - 1]) then rest + [columns[|columns| - 1]] else rest
  }

  function Place(c: Column): nat {
    match c
    case Wid => 0
    case RunId => 1
    case Org => 2
    case Iss => 3
    case Bar => 4
    case Phase => 5
    case Base => 6
    case Elapsed => 7
    case Eta => 8
    case Hb => 9
    case Loc => 10
    case Tks => 11
    case Ctx => 12
    case Tls => 13
    case Rsn => 14
    case Txt => 15
  }

  lemma PlaceIs(i: nat)
    requires i < |COLUMNS|
    ensures Place(COLUMNS[i]) == i
  {
  }

  lemma ColumnsOnce()
    ensures Distinct(COLUMNS)
  {
    hide Place;
    forall i, j | 0 <= i < j < |COLUMNS| ensures COLUMNS[i] != COLUMNS[j] {
      PlaceIs(i);
      PlaceIs(j);
    }
  }

  lemma {:induction false} PopulatedFrom(rows: seq<Row>, columns: seq<Column>)
    requires Distinct(columns)
    ensures Distinct(PopulatedOf(rows, columns))
    ensures forall c :: c in PopulatedOf(rows, columns) ==> c in columns
  {
    hide Populated;
    if columns != [] {
      var shorter, last := columns[..|columns| - 1], columns[|columns| - 1];
      PopulatedFrom(rows, shorter);
      assert columns == shorter + [last];
      assert last !in shorter;
    }
  }

  /** What the table keeps of a populated column outside the drop order, whatever the Workers and the width. */
  lemma IdentityOutlivesAnnotations(workers: seq<Worker>, o: Options, lost: Column, kept: Column)
    requires !IsAnnotation(lost)
    requires lost in PopulatedOf(RowsOf(workers), COLUMNS) && lost !in KeptColumns(workers, o)
    requires kept in KeptColumns(workers, o)
    ensures !IsAnnotation(kept)
  {
    hide Shed, IsAnnotation, PopulatedOf, Distinct;
    ColumnsOnce();
    PopulatedFrom(RowsOf(workers), COLUMNS);
    ShedSparesIdentity(RowsOf(workers), PopulatedOf(RowsOf(workers), COLUMNS), o.maxWidth, lost, kept);
  }

  /** One Worker's lines: its row and, when verbose, what it last logged. */
  function Block(p: Paint, rows: seq<Row>, w: Worker, columns: seq<Column>, o: Options): seq<string> {
    var row := RenderedRow(p, rows, w.row, columns, o.maxWidth);
    if o.verbose && w.log.Some? then [row, Clamped(w.log.value, o.maxWidth)] else [row]
  }

  function Blocks(p: Paint, rows: seq<Row>, workers: seq<Worker>, columns: seq<Column>, o: Options): seq<string> {
    if workers == [] then []
    else Blocks(p, rows, workers[..|workers| - 1], columns, o) + Block(p, rows, workers[|workers| - 1], columns, o)
  }

  function KeptColumns(workers: seq<Worker>, o: Options): seq<Column> {
    Shed(RowsOf(workers), PopulatedOf(RowsOf(workers), COLUMNS), o.maxWidth)
  }

  function Statusline(p: Paint, head: string, all: seq<Worker>, every: seq<Project>, o: Options): Rendered {
    var workers, projects := SelectWorkers(all, o), SelectProjects(every, o);
    var detail := Choose(Ladder(o, workers, projects), head, projects, o);
    var full := LineAt(head, projects, o, detail);
    var line := Clamped(full, o.maxWidth);
    var rows := RowsOf(workers);
    var columns := KeptColumns(workers, o);
    var body := if detail.Workers? then Blocks(p, rows, workers, columns, o) else [];
    var shed := detail.Workers? &&
      (|columns| < |PopulatedOf(rows, COLUMNS)| || RowWidth(rows, columns) > o.maxWidth);
    Rendered([line] + body, detail,
             detail != (if workers != [] then Workers else Host) || line != full || shed)
  }

  /** The method puts the pieces together as the renderer does. */
  method RenderStatusline(p: Paint, head: string, all: seq<Worker>, every: seq<Project>, o: Options)
    returns (r: Rendered)
    ensures r == Statusline(p, head, all, every, o)
  {
    hide Shed, Clamped, LineAt, RowWidth, PopulatedOf, RenderedRow, Choose, Ladder;
    var workers, projects := SelectWorkers(all, o), SelectProjects(every, o);
    var ladder := DetailLadder(o, workers, projects);
    LadderUnique(ladder, o, workers, projects);
    var detail, full := ChooseDetail(ladder, head, projects, o);
    var line := Clamp(full, o.maxWidth);
    var body, shed := [], false;
    if detail.Workers? {
      var rows := RowsOf(workers);
      var populated := PopulatedOf(rows, COLUMNS);
      var columns := ShedColumns(rows, populated, o.maxWidth);
      body := RenderBlocks(p, rows, workers, columns, o);
      var widths := WorkerWidths(rows, columns);
      var total := MeasureRow(widths, columns, rows);
      shed := |columns| < |populated| || total > o.maxWidth;
    }
    var richest := if |workers| > 0 then Workers else Host;
    r := Rendered([line] + body, detail, detail != richest || line != full || shed);
  }

  method RenderBlocks(p: Paint, rows: seq<Row>, workers: seq<Worker>, columns: seq<Column>, o: Options)
    returns (lines: seq<string>)
    ensures lines == Blocks(p, rows, workers, columns, o)
  {
    hide RenderedRow, Clamped;
    lines := [];
    for i := 0 to |workers|
      invariant lines == Blocks(p, rows, workers[..i], columns, o)
    {
      assert workers[..i + 1][..i] == workers[..i];
      lines := lines + Block(p, rows, workers[i], columns, o);
    }
    assert workers[..|workers|] == workers;
  }

  // ---------------------------------------------------------------------------
  // The bound
  // ---------------------------------------------------------------------------

  function MaxLines(o: Options): int {
    1 + Max(0, o.maxWorkers) * if o.verbose then 2 else 1
  }

  function MaxLineWidth(o: Options): int {
    Max(0, o.maxWidth)
  }

  function MaxCharacters(o: Options): int {
    MaxLines(o) * MaxLineWidth(o) + Max(0, MaxLines(o) - 1)
  }

  function SumLines(lines: seq<string>): nat {
    if lines == [] then 0 else SumLines(lines[..|lines| - 1]) + Width(lines[|lines| - 1])
  }

  /** What the lines cost a consumer, the newlines between them included. */
  function Characters(lines: seq<string>): int {
    SumLines(lines) + Max(0, |lines| - 1)
  }

  predicate Narrow(lines: seq<string>, maxWidth: int) {
    forall i :: 0 <= i < |lines| ==> Width(lines[i]) <= Max(0, maxWidth)
  }

  lemma {:induction false} BlocksBound(p: Paint, rows: seq<Row>, workers: seq<Worker>, columns: seq<Column>, o: Options)
    ensures |workers| <= |Blocks(p, rows, workers, columns, o)| <= |workers| * if o.verbose then 2 else 1
    ensures Narrow(Blocks(p, rows, workers, columns, o), o.maxWidth)
  {
    hide Width, Clamped, FullRow;
    if workers != [] {
      var w := workers[|workers| - 1];
      BlocksBound(p, rows, workers[..|workers| - 1], columns, o);
      ClampFits(FullRow(p, rows, w.row, columns), o.maxWidth);
      if w.log.Some? { ClampFits(w.log.value, o.maxWidth); }
      assert Narrow(Block(p, rows, w, columns, o), o.maxWidth);
    }
  }

  lemma {:induction false} SumBound(lines: seq<string>, width: nat)
    requires forall i :: 0 <= i < |lines| ==> Width(lines[i]) <= width
    ensures SumLines(lines) <= |lines| * width
  {
    hide Width;
    if lines != [] { SumBound(lines[..|lines| - 1], width); }
  }

  lemma ChooseWorkers(ladder: seq<Detail>, head: string, projects: seq<Project>, o: Options)
    requires ladder != [] && forall i :: 0 < i < |ladder| ==> !ladder[i].Workers?
    ensures Choose(ladder, head, projects, o).Workers? <==> ladder[0].Workers?
    decreases |ladder|
  {
    hide Width;
    if |ladder| > 1 && !ladder[0].Workers? {
      ChooseWorkers(ladder[1..], head, projects, o);
    }
  }

  /** Worker detail is shown exactly when the count budget allows it, whatever the width. */
  lemma WorkerDetailIff(p: Paint, head: string, all: seq<Worker>, every: seq<Project>, o: Options)
    ensures Statusline(p, head, all, every, o).detail.Workers? <==> 0 < |SelectWorkers(all, o)| <= o.maxWorkers
  {
    hide Choose, Blocks, KeptColumns, Clamped, LineAt, RowWidth, PopulatedOf;
    var workers, projects := SelectWorkers(all, o), SelectProjects(every, o);
    ChooseWorkers(Ladder(o, workers, projects), head, projects, o);
  }

  /** Projects are shown exactly when Workers are not allowed, projects are, and their line fits uncut. */
  lemma ProjectDetailIff(p: Paint, head: string, all: seq<Worker>, every: seq<Project>, o: Options)
    ensures
      var workers, projects := SelectWorkers(all, o), SelectProjects(every, o);
      Statusline(p, head, all, every, o).detail.Projects? <==>
        && !Allowed(Workers, o, workers, projects) && Allowed(Projects, o, workers, projects)
        && Width(Compose(head, projects, o.separator)) <= o.maxWidth
  {
    hide Compose, Width, Blocks, KeptColumns, Clamped, RowWidth, PopulatedOf, Choose, Ladder, Allowed, LineAt;
    ChooseProjects(SelectWorkers(all, o), SelectProjects(every, o), head, o);
  }

  lemma ChooseProjects(workers: seq<Worker>, projects: seq<Project>, head: string, o: Options)
    ensures Choose(Ladder(o, workers, projects), head, projects, o).Projects? <==>
      && !Allowed(Workers, o, workers, projects) && Allowed(Projects, o, workers, projects)
      && Width(Compose(head, projects, o.separator)) <= o.maxWidth
  {
    hide Compose, Width;
    var ladder := Ladder(o, workers, projects);
    assert Allowed(Workers, o, workers, projects) ==> ladder[0] == Workers;
    if !Allowed(Workers, o, workers, projects) {
      if Allowed(Projects, o, workers, projects) {
        assert ladder == [Projects, Host] && ladder[1..] == [Host];
      } else {
        assert ladder == [Host];
      }
    }
  }

  lemma Products(a: int, b: int, c: int)
    requires 0 <= a <= b && 0 <= c
    ensures a * c <= b * c
  {
  }

  /** Every render stays within the three bounds, which depend on the options alone. */
  lemma BoundHolds(p: Paint, head: string, all: seq<Worker>, every: seq<Project>, o: Options)
    ensures
      var lines := Statusline(p, head, all, every, o).lines;
      && |lines| <= MaxLines(o)
      && Narrow(lines, o.maxWidth)
      && Characters(lines) <= MaxCharacters(o)
  {
    hide Choose, KeptColumns, Width, Clamped, LineAt, RowWidth, PopulatedOf, Blocks;
    var r := Statusline(p, head, all, every, o);
    var workers, projects := SelectWorkers(all, o), SelectProjects(every, o);
    WorkerDetailIff(p, head, all, every, o);
    ClampFits(LineAt(head, projects, o, r.detail), o.maxWidth);
    if r.detail.Workers? {
      BlocksBound(p, RowsOf(workers), workers, KeptColumns(workers, o), o);
      Products(|workers|, Max(0, o.maxWorkers), if o.verbose then 2 else 1);
    }
    assert |r.lines| <= MaxLines(o);
    assert Narrow(r.lines, o.maxWidth);
    SumBound(r.lines, Max(0, o.maxWidth));
    Products(|r.lines|, MaxLines(o), MaxLineWidth(o));
  }

  // ---------------------------------------------------------------------------
  // Every Worker keeps its row
  // ---------------------------------------------------------------------------

  /** How many log lines the Workers add. */
  function Logs(workers: seq<Worker>, verbose: bool): nat {
    if workers == [] then 0
    else Logs(workers[..|workers| - 1], verbose) + if verbose && workers[|workers| - 1].log.Some? then 1 else 0
  }

  lemma {:induction false} BlocksPlace(
    p: Paint, rows: seq<Row>, workers: seq<Worker>, columns: seq<Column>, o: Options, i: nat)
    requires i < |workers|
    ensures |Blocks(p, rows, workers, columns, o)| == |workers| + Logs(workers, o.verbose)
    ensures i + Logs(workers[..i], o.verbose) < |Blocks(p, rows, workers, columns, o)|
    ensures Blocks(p, rows, workers, columns, o)[i + Logs(workers[..i], o.verbose)] ==
            RenderedRow(p, rows, workers[i].row, columns, o.maxWidth)
  {
    hide Clamped, RenderedRow;
    var shorter := workers[..|workers| - 1];
    if i < |workers| - 1 {
      BlocksPlace(p, rows, shorter, columns, o, i);
      assert shorter[..i] == workers[..i];
    } else {
      if shorter != [] { BlocksPlace(p, rows, shorter, columns, o, 0); }
      assert workers[..i] == shorter;
    }
  }

  /**
   When the selected Workers are within the count budget, each has its row, in
   order, at every width: after the head, after the rows and logs of those before it.
   */
  lemma EveryWorkerHasItsRow(p: Paint, head: string, all: seq<Worker>, every: seq<Project>, o: Options, i: nat)
    requires 0 < |SelectWorkers(all, o)| <= o.maxWorkers && i < |SelectWorkers(all, o)|
    ensures
      var workers := SelectWorkers(all, o);
      var lines := Statusline(p, head, all, every, o).lines;
      var at := 1 + i + Logs(workers[..i], o.verbose);
      && |lines| == 1 + |workers| + Logs(workers, o.verbose)
      && at < |lines|
      && lines[at] == RenderedRow(p, RowsOf(workers), workers[i].row, KeptColumns(workers, o), o.maxWidth)
  {
    hide Choose, KeptColumns, RenderedRow, Clamped, LineAt, RowWidth, PopulatedOf, Blocks, Logs;
    var workers := SelectWorkers(all, o);
    WorkerDetailIff(p, head, all, every, o);
    BlocksPlace(p, RowsOf(workers), workers, KeptColumns(workers, o), o, i);
  }

  /** No selected Worker's row is cut unless one column alone is wider than the line. */
  lemma RowsAreWhole(p: Paint, workers: seq<Worker>, o: Options, i: nat)
    requires Faithful(p) && i < |workers| && 0 < o.maxWidth
    requires |KeptColumns(workers, o)| != 1
    ensures
      var rows, columns := RowsOf(workers), KeptColumns(workers, o);
      RenderedRow(p, rows, workers[i].row, columns, o.maxWidth) == FullRow(p, rows, workers[i].row, columns)
  {
    hide RenderedRow, FullRow, Faithful, Shed, PopulatedOf, SumWidths;
    var rows, columns := RowsOf(workers), KeptColumns(workers, o);
    ShedFits(rows, PopulatedOf(rows, COLUMNS), o.maxWidth);
    NoColumns(rows);
    RowFitsUncut(p, rows, i, columns, o.maxWidth);
  }

  lemma NoColumns(rows: seq<Row>)
    ensures SumWidths(rows, []) == 0
  {
  }

  // ---------------------------------------------------------------------------
  // What the rows show
  // ---------------------------------------------------------------------------

  /** A cell as it is read: its own text, and spaces up to the widest cell of the column. */
  function CellText(rows: seq<Row>, row: Row, c: Column): string {
    var missing := Widest(rows, c) - Width(row.cell(c));
    Visible(row.cell(c)) + Spaces(if missing > 0 then missing else 0)
  }

  /** A row as it is read: its cells in the order of the columns, two spaces between them. */
  function RowText(rows: seq<Row>, row: Row, columns: seq<Column>): string {
    if columns == [] then []
    else if |columns| == 1 then CellText(rows, row, columns[0])
    else CellText(rows, row, columns[0]) + "  " + RowText(rows, row, columns[1..])
  }

  lemma {:induction false} RowTextLast(rows: seq<Row>, row: Row, columns: seq<Column>)
    requires |columns| > 1
    ensures RowText(rows, row, columns)
         == RowText(rows, row, columns[..|columns| - 1]) + ("  " + CellText(rows, row, columns[|columns| - 1]))
  {
    hide CellText;
    var first, init, last := columns[0], columns[..|columns| - 1], columns[|columns| - 1];
    assert init[0] == first;
    if |columns| == 2 {
      assert columns[1..] == [last] && init == [first];
      assert CellText(rows, row, first) + "  " + CellText(rows, row, last)
          == CellText(rows, row, first) + ("  " + CellText(rows, row, last));
    } else {
      var rest := columns[1..];
      RowTextLast(rows, row, rest);
      assert rest[..|rest| - 1] == init[1..] && rest[|rest| - 1] == last;
      assert RowText(rows, row, init) == CellText(rows, row, first) + "  " + RowText(rows, row, init[1..]);
      Regrouped(CellText(rows, row, first) + "  ", RowText(rows, row, init[1..]), "  " + CellText(rows, row, last));
    }
  }

  lemma Regrouped(a: string, b: string, c: string)
    ensures a + (b + c) == a + b + c
  {
  }

  lemma PadShows(text: string, target: int)
    ensures Visible(Pad(text, target))
         == Visible(text) + Spaces(if target > Width(text) then target - Width(text) else 0)
  {
    hide Visible;
    if target > Width(text) {
      SpacesShow(target - Width(text));
      WidthAppend(text, Spaces(target - Width(text)));
    } else {
      assert text + [] == text && Visible(text) + Spaces(0) == Visible(text);
    }
  }

  lemma GutterShows(s: string)
    ensures Breaks(GUTTER + s) && Visible(GUTTER + s) == GUTTER + Visible(s)
  {
    hide Visible;
    ShownFirst(' ', s);
    ShownFirst(' ', [' '] + s);
    assert GUTTER + s == [' '] + ([' '] + s);
    assert GUTTER + Visible(s) == [' '] + ([' '] + Visible(s));
  }

  lemma {:induction false} JoinedShows(p: Paint, rows: seq<Row>, row: Row, columns: seq<Column>)
    requires Faithful(p)
    ensures Visible(Joined(p, rows, row, columns)) == RowText(rows, row, columns)
  {
    hide Visible, Faithful, Widest, Breaks, Pad, CellText, RowText;
    if columns == [] {
      EmptyShows(rows, row);
    } else {
      var c := columns[|columns| - 1];
      PartShows(p, rows, row, c);
      if |columns| > 1 {
        var shorter := columns[..|columns| - 1];
        JoinedShows(p, rows, row, shorter);
        var last := Part(p, rows, row, c);
        GutterShows(last);
        WidthAppend(Joined(p, rows, row, shorter), GUTTER + last);
        RowTextLast(rows, row, columns);
      } else {
        OneShows(rows, row, columns);
      }
    }
  }

  lemma EmptyShows(rows: seq<Row>, row: Row)
    ensures Visible([]) == [] && RowText(rows, row, []) == []
  {
  }

  lemma OneShows(rows: seq<Row>, row: Row, columns: seq<Column>)
    requires |columns| == 1
    ensures RowText(rows, row, columns) == CellText(rows, row, columns[0])
  {
  }

  lemma PartShows(p: Paint, rows: seq<Row>, row: Row, c: Column)
    requires Faithful(p)
    ensures Visible(Part(p, rows, row, c)) == CellText(rows, row, c)
  {
    hide Visible, Pad, Widest, Width;
    PadShows(row.cell(c), Widest(rows, c));
  }

  lemma EscapeShows(params: string, s: string)
    requires AllParams(params)
    ensures Visible(Text(Escape(params)) + s) == Visible(s)
  {
    hide Tokens, Text;
    TokensEscape(params, s);
    GlyphsAppend([Escape(params)], Tokens(s));
    assert [Escape(params)][1..] == [];
  }

  lemma ResetShows(s: string)
    ensures Visible(s + RESET) == Visible(s)
  {
    hide Visible;
    assert RESET == Text(Escape("0")) + [];
    EscapeShows("0", []);
    NothingShown();
    WidthAppend(s, RESET);
    assert Visible(s) + [] == Visible(s);
  }

  lemma FullRowShows(p: Paint, rows: seq<Row>, row: Row, columns: seq<Column>)
    requires Faithful(p)
    ensures Visible(FullRow(p, rows, row, columns)) == RowText(rows, row, columns)
  {
    hide Visible, Joined, RowText, Text;
    var joined := Joined(p, rows, row, columns);
    JoinedShows(p, rows, row, columns);
    ResetShows(joined);
    EscapeShows(p.tone, joined + RESET);
    EscapeShows(p.ground, Text(Escape(p.tone)) + (joined + RESET));
  }

  /** What is read of a text cut to a width. */
  function CutTo(text: string, maxWidth: int): string {
    if maxWidth <= 0 then [] else if |text| <= maxWidth then text else text[..maxWidth - 1] + [ELLIPSIS]
  }

  lemma ClampShows(line: string, maxWidth: int)
    ensures Visible(Clamped(line, maxWidth)) == CutTo(Visible(line), maxWidth)
  {
    hide Visible, Clamped;
    ClampFits(line, maxWidth);
  }

  lemma RenderedShows(p: Paint, rows: seq<Row>, row: Row, columns: seq<Column>, maxWidth: int)
    requires Faithful(p)
    ensures Visible(RenderedRow(p, rows, row, columns, maxWidth)) == CutTo(RowText(rows, row, columns), maxWidth)
  {
    hide Visible, FullRow, RowText, Clamped, CutTo, Faithful;
    FullRowShows(p, rows, row, columns);
    ClampShows(FullRow(p, rows, row, columns), maxWidth);
  }

  /** The log line of a Worker follows its row. */
  lemma {:induction false} LogPlace(
    p: Paint, rows: seq<Row>, workers: seq<Worker>, columns: seq<Column>, o: Options, i: nat)
    requires i < |workers| && o.verbose && workers[i].log.Some?
    ensures
      var lines := Blocks(p, rows, workers, columns, o);
      var at := i + Logs(workers[..i], o.verbose) + 1;
      at < |lines| && lines[at] == Clamped(workers[i].log.value, o.maxWidth)
  {
    hide Clamped, RenderedRow;
    var shorter := workers[..|workers| - 1];
    if i < |workers| - 1 {
      LogPlace(p, rows, shorter, columns, o, i);
      assert shorter[..i] == workers[..i];
    } else {
      if shorter != [] { BlocksPlace(p, rows, shorter, columns, o, 0); }
      assert workers[..i] == shorter;
    }
  }

  /**
   What is read of each Worker's line, at every width: that Worker's own cells over the
   kept columns, padded to the columns' widths and two spaces apart, or the beginning
   of that and an ellipsis; and below it, when verbose, its own log text.
   */
  lemma RowsShowTheirWorkers(p: Paint, head: string, all: seq<Worker>, every: seq<Project>, o: Options, i: nat)
    requires Faithful(p)
    requires 0 < |SelectWorkers(all, o)| <= o.maxWorkers && i < |SelectWorkers(all, o)|
    ensures
      var workers := SelectWorkers(all, o);
      var lines := Statusline(p, head, all, every, o).lines;
      var at := 1 + i + Logs(workers[..i], o.verbose);
      && at < |lines|
      && Visible(lines[at]) == CutTo(RowText(RowsOf(workers), workers[i].row, KeptColumns(workers, o)), o.maxWidth)
      && (o.verbose && workers[i].log.Some? ==>
            at + 1 < |lines| && Visible(lines[at + 1]) == CutTo(Visible(workers[i].log.value), o.maxWidth))
  {
    hide Choose, KeptColumns, RenderedRow, Clamped, LineAt, RowWidth, PopulatedOf, Blocks, Logs, Faithful, Visible;
    hide RowText, CutTo;
    var workers := SelectWorkers(all, o);
    EveryWorkerHasItsRow(p, head, all, every, o, i);
    RenderedShows(p, RowsOf(workers), workers[i].row, KeptColumns(workers, o), o.maxWidth);
    if o.verbose && workers[i].log.Some? {
      WorkerDetailIff(p, head, all, every, o);
      LogPlace(p, RowsOf(workers), workers, KeptColumns(workers, o), o, i);
      ClampShows(workers[i].log.value, o.maxWidth);
    }
  }

  predicate InPlace(columns: seq<Column>) {
    forall i, j :: 0 <= i < j < |columns| ==> Place(columns[i]) < Place(columns[j])
  }

  /** The columns offered are those with any text, in the dashboard's order. */
  lemma {:induction false} PopulatedIff(rows: seq<Row>, columns: seq<Column>, c: Column)
    requires InPlace(columns)
    ensures c in PopulatedOf(rows, columns) <==> c in columns && Populated(rows, c)
    ensures InPlace(PopulatedOf(rows, columns))
    ensures forall x :: x in PopulatedOf(rows, columns) ==> x in columns
  {
    hide Populated, Place, InPlace;
    if columns == [] {
      NoneInPlace();
    } else {
      var shorter, last := columns[..|columns| - 1], columns[|columns| - 1];
      PrefixInPlace(columns);
      PopulatedIff(rows, shorter, c);
      assert columns == shorter + [last];
      LastInPlace(columns, PopulatedOf(rows, shorter));
    }
  }

  lemma NoneInPlace()
    ensures InPlace([])
  {
  }

  lemma PrefixInPlace(columns: seq<Column>)
    requires InPlace(columns) && columns != []
    ensures InPlace(columns[..|columns| - 1])
  {
    hide Place;
  }

  /** Columns in order from before the last one stay so with it behind them. */
  lemma LastInPlace(columns: seq<Column>, some: seq<Column>)
    requires InPlace(columns) && columns != [] && InPlace(some)
    requires forall x :: x in some ==> x in columns[..|columns| - 1]
    ensures InPlace(some + [columns[|columns| - 1]])
  {
    hide Place;
    var shorter, last := columns[..|columns| - 1], columns[|columns| - 1];
    forall i | 0 <= i < |some| ensures Place(some[i]) < Place(last) {
      assert some[i] in some;
      var j :| 0 <= j < |shorter| && shorter[j] == some[i];
      assert columns[j] == some[i];
    }
  }

  lemma {:induction false} RemoveInPlace(columns: seq<Column>, c: Column)
    requires InPlace(columns)
    ensures InPlace(Remove(columns, c))
    ensures forall x :: x in Remove(columns, c) ==> x in columns
  {
    hide Place;
    if columns != [] {
      var rest := columns[1..];
      RemoveInPlace(rest, c);
      assert columns == [columns[0]] + rest;
      var r := Remove(rest, c);
      forall i | 0 <= i < |r| ensures Place(columns[0]) < Place(r[i]) {
        assert r[i] in r;
        var j :| 0 <= j < |rest| && rest[j] == r[i];
        assert columns[j + 1] == r[i];
      }
    }
  }

  lemma {:induction false} WithoutInPlace(columns: seq<Column>, n: nat)
    requires InPlace(columns) && n <= |DROP_ORDER|
    ensures InPlace(Without(columns, n))
  {
    hide Place, InPlace, Remove;
    if n > 0 {
      WithoutInPlace(columns, n - 1);
      RemoveInPlace(Without(columns, n - 1), DROP_ORDER[n - 1]);
    }
  }

  lemma ColumnsInPlace()
    ensures InPlace(COLUMNS)
  {
    hide Place;
    forall i, j | 0 <= i < j < |COLUMNS| ensures Place(COLUMNS[i]) < Place(COLUMNS[j]) {
      PlaceIs(i);
      PlaceIs(j);
    }
  }

  lemma AllColumns(c: Column)
    ensures c in COLUMNS
  {
    assert Place(c) < |COLUMNS| && COLUMNS[Place(c)] == c;
  }

  lemma PopulatedWhen(workers: seq<Worker>, c: Column)
    ensures Populated(RowsOf(workers), c) <==> exists w <- workers :: Visible(w.row.cell(c)) != []
  {
    hide Visible;
    var rows := RowsOf(workers);
    if Populated(rows, c) {
      var i :| 0 <= i < |rows| && Width(rows[i].cell(c)) > 0;
      assert workers[i] in workers && rows[i] == workers[i].row;
    }
    if exists w <- workers :: Visible(w.row.cell(c)) != [] {
      var w :| w in workers && Visible(w.row.cell(c)) != [];
      var i :| 0 <= i < |workers| && workers[i] == w;
      assert rows[i] == w.row && Width(rows[i].cell(c)) > 0;
    }
  }

  /** The table keeps only columns with text, in the dashboard's order, and all of them when they fit. */
  lemma KeptColumnsAre(workers: seq<Worker>, o: Options, c: Column)
    ensures
      var rows, kept := RowsOf(workers), KeptColumns(workers, o);
      && (c in kept ==> exists w <- workers :: Visible(w.row.cell(c)) != [])
      && InPlace(kept)
      && (RowWidth(rows, PopulatedOf(rows, COLUMNS)) <= o.maxWidth ==>
            (c in kept <==> exists w <- workers :: Visible(w.row.cell(c)) != []))
  {
    PopulatedWhen(workers, c);
    hide Populated, RowWidth, PopulatedOf, Place, COLUMNS, Without, DropPoint;
    var rows := RowsOf(workers);
    var all := PopulatedOf(rows, COLUMNS);
    ColumnsInPlace();
    ColumnsOnce();
    AllColumns(c);
    PopulatedIff(rows, COLUMNS, c);
    PopulatedFrom(rows, COLUMNS);
    var k := DropPoint(rows, all, o.maxWidth, 0);
    WithoutInPlace(all, k);
    WithoutHas(all, k);
    ShedFits(rows, all, o.maxWidth);
    var kept := KeptColumns(workers, o);
    assert kept <= Without(all, k);
    if c in kept { assert c in Without(all, k); }
  }

  // ---------------------------------------------------------------------------
  // What is selected, and what the first line shows
  // ---------------------------------------------------------------------------

  lemma {:induction false} OwnWorkersAppend(a: seq<Worker>, b: seq<Worker>, project: string)
    ensures OwnWorkers(a + b, project) == OwnWorkers(a, project) + OwnWorkers(b, project)
  {
    if b == [] {
      assert a + b == a;
    } else {
      assert (a + b)[..|a + b| - 1] == a + b[..|b| - 1];
      OwnWorkersAppend(a, b[..|b| - 1], project);
    }
  }

  /** Workers are selected one by one, in order: all of them, or those of the project that was named. */
  lemma SelectionIsOneByOne(a: seq<Worker>, w: Worker, b: seq<Worker>, o: Options)
    ensures SelectWorkers([], o) == []
    ensures SelectWorkers(a + [w] + b, o) == SelectWorkers(a, o)
      + (if o.mode == Global || o.project == Some(w.project) then [w] else []) + SelectWorkers(b, o)
  {
    if o.mode.Local? && o.project.Some? {
      OwnWorkersAppend(a + [w], b, o.project.value);
      OwnWorkersAppend(a, [w], o.project.value);
      assert [w][..0] == [];
      assert OwnWorkers([w], o.project.value) == if w.project == o.project.value then [w] else [];
    }
  }

  lemma {:induction false} OwnProjectsAppend(a: seq<Project>, b: seq<Project>, project: Option<string>)
    ensures OwnProjects(a + b, project) == OwnProjects(a, project) + OwnProjects(b, project)
  {
    if b == [] {
      assert a + b == a;
    } else {
      assert (a + b)[..|a + b| - 1] == a + b[..|b| - 1];
      OwnProjectsAppend(a, b[..|b| - 1], project);
    }
  }

  /** So are projects. */
  lemma ProjectSelectionIsOneByOne(a: seq<Project>, p: Project, b: seq<Project>, o: Options)
    ensures SelectProjects([], o) == []
    ensures SelectProjects(a + [p] + b, o) == SelectProjects(a, o)
      + (if o.mode == Global || o.project == Some(p.name) then [p] else []) + SelectProjects(b, o)
  {
    if o.mode.Local? {
      OwnProjectsAppend(a + [p], b, o.project);
      OwnProjectsAppend(a, [p], o.project);
      assert [p][..0] == [];
      assert OwnProjects([p], o.project) == if Some(p.name) == o.project then [p] else [];
    }
  }

  /** The texts in order, each with the separator before it. */
  function Trail(projects: seq<Project>, separator: string): string {
    if projects == [] then [] else separator + (projects[0].text + Trail(projects[1..], separator))
  }

  lemma {:induction false} ComposeFront(head: string, projects: seq<Project>, separator: string)
    requires projects != []
    ensures Compose(head, projects, separator) == Compose(head + separator + projects[0].text, projects[1..], separator)
  {
    if |projects| > 1 {
      ComposeFront(head, projects[..|projects| - 1], separator);
      assert projects[..|projects| - 1][1..] == projects[1..][..|projects| - 2];
    } else {
      assert projects[..0] == [] && projects[1..] == [];
    }
  }

  lemma {:induction false} ComposeIsTrail(head: string, projects: seq<Project>, separator: string)
    ensures Compose(head, projects, separator) == head + Trail(projects, separator)
    decreases |projects|
  {
    if projects == [] {
      assert head + [] == head;
    } else {
      var text, rest := projects[0].text, Trail(projects[1..], separator);
      ComposeFront(head, projects, separator);
      ComposeIsTrail(head + separator + text, projects[1..], separator);
      Regrouped(head + separator, text, rest);
      Regrouped(head, separator, text + rest);
    }
  }

  /** The first line reads as the head, and as the selected projects behind it exactly under project detail. */
  lemma FirstLineShows(p: Paint, head: string, all: seq<Worker>, every: seq<Project>, o: Options)
    ensures
      var r := Statusline(p, head, all, every, o);
      var full := head + if r.detail.Projects? then Trail(SelectProjects(every, o), o.separator) else [];
      && r.lines != [] && Visible(r.lines[0]) == CutTo(Visible(full), o.maxWidth)
      && (0 < o.maxWidth && Width(full) <= o.maxWidth ==> r.lines[0] == full)
  {
    hide Choose, KeptColumns, Width, Clamped, RowWidth, PopulatedOf, Blocks, Compose, Trail, Visible, CutTo;
    var r := Statusline(p, head, all, every, o);
    ComposeIsTrail(head, SelectProjects(every, o), o.separator);
    var full := LineAt(head, SelectProjects(every, o), o, r.detail);
    assert head + [] == head;
    ClampShows(full, o.maxWidth);
    ClampFits(full, o.maxWidth);
  }

  lemma {:induction false} RemoveShortens(columns: seq<Column>, c: Column)
    ensures |Remove(columns, c)| < |columns| || Remove(columns, c) == columns
  {
    if columns != [] && columns[0] != c {
      RemoveShortens(columns[1..], c);
      assert columns == [columns[0]] + columns[1..];
    }
  }

  lemma {:induction false} WithoutShortens(columns: seq<Column>, n: nat)
    requires n <= |DROP_ORDER|
    ensures |Without(columns, n)| < |columns| || Without(columns, n) == columns
  {
    hide DROP_ORDER, Remove;
    if n > 0 {
      WithoutShortens(columns, n - 1);
      RemoveShortens(Without(columns, n - 1), DROP_ORDER[n - 1]);
    }
  }

  /** A table is shed exactly when it does not fit whole. */
  lemma ShedIff(rows: seq<Row>, columns: seq<Column>, maxWidth: int)
    ensures
      var kept := Shed(rows, columns, maxWidth);
      |kept| < |columns| || RowWidth(rows, kept) > maxWidth <==> RowWidth(rows, columns) > maxWidth
  {
    hide RowWidth, Without, DropPoint;
    var k := DropPoint(rows, columns, maxWidth, 0);
    WithoutShortens(columns, k);
    ShedFits(rows, columns, maxWidth);
    var kept := Shed(rows, columns, maxWidth);
    assert kept <= Without(columns, k);
    if RowWidth(rows, columns) > maxWidth && |columns| > 1 {
      assert !TooWide(rows, kept, maxWidth);
      assert |kept| == |columns| ==> kept == columns;
    }
  }

  /**
   A render is not degraded exactly when nothing was held back: the detail is the
   richest there is something to show for, the first line is whole, and so is the
   table of every column with text.
   */
  lemma NotDegradedIff(p: Paint, head: string, all: seq<Worker>, every: seq<Project>, o: Options)
    requires 0 < o.maxWidth
    ensures
      var r, workers := Statusline(p, head, all, every, o), SelectWorkers(all, o);
      var rows := RowsOf(workers);
      !r.degraded <==>
      && (if workers == [] then r.detail.Host? else r.detail.Workers?)
      && Width(head) <= o.maxWidth
      && (workers != [] ==> RowWidth(rows, PopulatedOf(rows, COLUMNS)) <= o.maxWidth)
  {
    hide Choose, Width, Clamped, RowWidth, PopulatedOf, Blocks, Compose, Shed, Visible;
    var r, workers := Statusline(p, head, all, every, o), SelectWorkers(all, o);
    var rows := RowsOf(workers);
    ShedIff(rows, PopulatedOf(rows, COLUMNS), o.maxWidth);
    WorkerDetailIff(p, head, all, every, o);
    ClampFits(LineAt(head, SelectProjects(every, o), o, r.detail), o.maxWidth);
  }

  // ---------------------------------------------------------------------------
  // The bound is reached
  // ---------------------------------------------------------------------------

  /** A text one wider than any line. */
  function Wide(o: Options): string
    requires 0 < o.maxWidth
  {
    seq(o.maxWidth + 1, _ => 'x')
  }

  lemma {:induction false} LettersShow(n: nat)
    ensures Visible(seq(n, _ => 'x')) == seq(n, _ => 'x')
  {
    var s := seq(n, _ => 'x');
    if n > 0 {
      LettersShow(n - 1);
      assert s[1..] == seq(n - 1, _ => 'x');
      assert s == ['x'] + s[1..];
      ShownFirst('x', s[1..]);
    }
  }

  function WideCells(o: Options): Column -> string
    requires 0 < o.maxWidth
  {
    (c: Column) => if c == Wid then Wide(o) else []
  }

  function WideWorker(o: Options): Worker
    requires 0 < o.maxWidth
  {
    Worker("", Row(WideCells(o)), Some(Wide(o)))
  }

  function WideWorkers(o: Options, n: nat): seq<Worker>
    requires 0 < o.maxWidth
  {
    seq(n, _ => WideWorker(o))
  }

  lemma WideTable(o: Options, n: nat)
    requires 0 < o.maxWidth && n > 0
    ensures KeptColumns(WideWorkers(o, n), o) == [Wid]
  {
    hide PopulatedOf, Shed, Visible, RowWidth;
    var rows := RowsOf(WideWorkers(o, n));
    LettersShow(o.maxWidth + 1);
    NothingShown();
    assert rows[0].cell(Wid) == Wide(o) && Width(rows[0].cell(Wid)) > 0;
    assert Populated(rows, Wid);
    ColumnsOnce();
    AllColumns(Wid);
    OnlyWid(rows, COLUMNS);
    ShedFits(rows, [Wid], o.maxWidth);
  }

  lemma {:induction false} OnlyWid(rows: seq<Row>, columns: seq<Column>)
    requires Populated(rows, Wid) && Distinct(columns)
    requires forall i, c :: 0 <= i < |rows| && c != Wid ==> Width(rows[i].cell(c)) == 0
    ensures PopulatedOf(rows, columns) == if Wid in columns then [Wid] else []
  {
    hide Width;
    if columns != [] {
      var shorter, last := columns[..|columns| - 1], columns[|columns| - 1];
      assert columns == shorter + [last];
      OnlyWid(rows, shorter);
      assert last == Wid ==> Wid !in shorter;
    }
  }

  /** Every line of the wide Workers is as wide as a line may be. */
  lemma WideBlock(p: Paint, o: Options, n: nat)
    requires Faithful(p) && 0 < o.maxWidth && n > 0
    ensures
      var lines := Block(p, RowsOf(WideWorkers(o, n)), WideWorker(o), [Wid], o);
      |lines| == (if o.verbose then 2 else 1) && forall i :: 0 <= i < |lines| ==> Width(lines[i]) == o.maxWidth
  {
    hide RenderedRow, Faithful, Clamped, Visible;
    var rows, w := RowsOf(WideWorkers(o, n)), WideWorker(o);
    RenderedShows(p, rows, w.row, [Wid], o.maxWidth);
    OneShows(rows, w.row, [Wid]);
    LettersShow(o.maxWidth + 1);
    assert w.row.cell(Wid) == Wide(o) && Visible(w.row.cell(Wid)) == Wide(o);
    assert |RowText(rows, w.row, [Wid])| > o.maxWidth;
    ClampShows(Wide(o), o.maxWidth);
  }

  lemma {:induction false} WideBlocks(p: Paint, o: Options, n: nat, k: nat)
    requires Faithful(p) && 0 < o.maxWidth && 0 < n
    ensures
      var lines := Blocks(p, RowsOf(WideWorkers(o, n)), WideWorkers(o, k), [Wid], o);
      |lines| == k * (if o.verbose then 2 else 1) && forall i :: 0 <= i < |lines| ==> Width(lines[i]) == o.maxWidth
  {
    hide Block, Faithful, Width;
    if k > 0 {
      assert WideWorkers(o, k)[..k - 1] == WideWorkers(o, k - 1);
      WideBlocks(p, o, n, k - 1);
      WideBlock(p, o, n);
    }
  }

  lemma {:induction false} SumOfEqual(lines: seq<string>, width: nat)
    requires forall i :: 0 <= i < |lines| ==> Width(lines[i]) == width
    ensures SumLines(lines) == |lines| * width
  {
    hide Width;
    if lines != [] { SumOfEqual(lines[..|lines| - 1], width); }
  }

  /** No smaller bound would do: as many Workers as are listed, all of them too wide, reach it exactly. */
  lemma BoundIsReached(p: Paint, o: Options)
    requires Faithful(p) && 0 < o.maxWidth && o.mode.Global?
    ensures
      var lines := Statusline(p, Wide(o), WideWorkers(o, Max(0, o.maxWorkers)), [], o).lines;
      && |lines| == MaxLines(o)
      && (forall i :: 0 <= i < |lines| ==> Width(lines[i]) == MaxLineWidth(o))
      && Characters(lines) == MaxCharacters(o)
  {
    hide Width, Statusline, SumLines;
    var lines := Statusline(p, Wide(o), WideWorkers(o, Max(0, o.maxWorkers)), [], o).lines;
    WideLines(p, o, Max(0, o.maxWorkers));
    SumOfEqual(lines, o.maxWidth);
  }

  lemma WideLines(p: Paint, o: Options, n: nat)
    requires Faithful(p) && 0 < o.maxWidth && o.mode.Global? && n == Max(0, o.maxWorkers)
    ensures
      var lines := Statusline(p, Wide(o), WideWorkers(o, n), [], o).lines;
      && |lines| == 1 + n * (if o.verbose then 2 else 1)
      && forall i :: 0 <= i < |lines| ==> Width(lines[i]) == o.maxWidth
  {
    hide KeptColumns, Width, Clamped, RowWidth, PopulatedOf, Blocks, Compose, Faithful, Choose, LineAt, Ladder;
    var all := WideWorkers(o, n);
    WorkerDetailIff(p, Wide(o), all, [], o);
    FirstLineIsWide(p, all, o);
    if n > 0 {
      WideTable(o, n);
      WideBlocks(p, o, n, n);
    }
  }

  lemma FirstLineIsWide(p: Paint, all: seq<Worker>, o: Options)
    requires 0 < o.maxWidth && o.mode.Global?
    ensures
      var r := Statusline(p, Wide(o), all, [], o);
      r.lines != [] && Width(r.lines[0]) == o.maxWidth
  {
    hide KeptColumns, Clamped, RowWidth, PopulatedOf, Blocks, Compose, Choose, Visible;
    var r := Statusline(p, Wide(o), all, [], o);
    FirstLineShows(p, Wide(o), all, [], o);
    LettersShow(o.maxWidth + 1);
    var full := Wide(o) + if r.detail.Projects? then Trail([], o.separator) else [];
    assert full == Wide(o);
  }
}
