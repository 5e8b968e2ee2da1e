/**
 One aliased GraphQL request for several single-object reads.

 The reader of the answer walks the alias record in insertion order and the
 coalescer pairs the rows with its callers BY POSITION, so the row of a caller
 is its own only because the aliases are distinct and in request order.
 */
module AliasedQuery {
  import opened Decimals
  import opened Wrappers

  datatype Kind = Issue | PullRequest

  /** What a read is about; the server answers per object. */
  datatype Object = Object(kind: Kind, owner: string, repo: string, number: int)

  datatype Read = Read(target: Object, selection: string)

  /** One property of the alias record, in insertion order. */
  datatype Entry = Entry(alias: string, read: Read)

  datatype Row = Row(read: Read, value: Option<string>)

  // ---------------------------------------------------------------------------
  // Aliases
  // ---------------------------------------------------------------------------

  function Alias(index: nat): string {
    "r" + Decimal(index)
  }

  lemma AliasInjective(m: nat, n: nat)
    requires Alias(m) == Alias(n)
    ensures m == n
  {
    assert Alias(m)[1..] == Decimal(m) && Alias(n)[1..] == Decimal(n);
    DecimalInjective(m, n);
  }

  // ---------------------------------------------------------------------------
  // Building the query
  // ---------------------------------------------------------------------------

  /** Assigning a property: an existing key keeps its place, a new one is appended. */
  function Assign(record: seq<Entry>, alias: string, read: Read): seq<Entry> {
    if record == [] then [Entry(alias, read)]
    else if record[0].alias == alias then record[0 := Entry(alias, read)]
    else [record[0]] + Assign(record[1..], alias, read)
  }

  lemma {:induction false} AssignFresh(record: seq<Entry>, alias: string, read: Read)
    requires forall i :: 0 <= i < |record| ==> record[i].alias != alias
    ensures Assign(record, alias, read) == record + [Entry(alias, read)]
  {
    if record != [] {
      AssignFresh(record[1..], alias, read);
      assert [record[0]] + (record[1..] + [Entry(alias, read)]) == record + [Entry(alias, read)];
    }
  }

  /** An alias assigned twice keeps its place and the later read. */
  lemma {:induction false} AssignKnown(record: seq<Entry>, alias: string, read: Read, i: nat)
    requires i < |record| && record[i].alias == alias
    requires forall j :: 0 <= j < i ==> record[j].alias != alias
    ensures Assign(record, alias, read) == record[i := Entry(alias, read)]
  {
    if i > 0 {
      AssignKnown(record[1..], alias, read, i - 1);
      assert [record[0]] + record[1..][i - 1 := Entry(alias, read)] == record[i := Entry(alias, read)];
    }
  }

  /** What `trim` removes: white space and line terminators of ECMA-262. */
  predicate IsSpace(c: char) {
    var n := c as int;
    9 <= n <= 13 || n == 0x20 || n == 0xA0 || n == 0x1680 || 0x2000 <= n <= 0x200A || n == 0x2028 || n == 0x2029 ||
    n == 0x202F || n == 0x205F || n == 0x3000 || n == 0xFEFF
  }

  predicate Blank(selection: string) {
    forall i :: 0 <= i < |selection| ==> IsSpace(selection[i])
  }

  const MAX_SAFE_INTEGER: int := 9_007_199_254_740_991

  predicate IsNumber(n: int) {
    0 < n <= MAX_SAFE_INTEGER
  }

  /** The reads one query may carry: at least one, one kind, positive safe numbers, some fields. */
  predicate Askable(asked: seq<Read>) {
    && asked != []
    && forall i :: 0 <= i < |asked| ==>
         && asked[i].target.kind == asked[0].target.kind
         && IsNumber(asked[i].target.number)
         && !Blank(asked[i].selection)
  }

  /** The code points that `trim` removes, one by one. */
  const SPACES: seq<int> := [
    0x9, 0xA, 0xB, 0xC, 0xD, 0x20, 0xA0, 0x1680, 0x2000, 0x2001, 0x2002, 0x2003, 0x2004, 0x2005, 0x2006, 0x2007,
    0x2008, 0x2009, 0x200A, 0x2028, 0x2029, 0x202F, 0x205F, 0x3000, 0xFEFF]

  lemma SpacesAre(c: char)
    ensures IsSpace(c) <==> c as int in SPACES
  {
  }

  /** The text without the spaces at its ends. */
  function Trimmed(s: string): string {
    if s != [] && s[0] as int in SPACES then Trimmed(s[1..])
    else if s != [] && s[|s| - 1] as int in SPACES then Trimmed(s[..|s| - 1])
    else s
  }

  lemma {:induction false} BlankIff(s: string)
    ensures Blank(s) <==> Trimmed(s) == []
    decreases |s|
  {
    hide IsSpace, SPACES;
    if s != [] {
      SpacesAre(s[0]);
      SpacesAre(s[|s| - 1]);
      if s[0] as int in SPACES {
        BlankIff(s[1..]);
        assert s == [s[0]] + s[1..];
      } else if s[|s| - 1] as int in SPACES {
        BlankIff(s[..|s| - 1]);
        assert s == s[..|s| - 1] + [s[|s| - 1]];
      }
    }
  }

  /** Which reads one query may carry, spelled out; 9007199254740991 is the greatest safe integer. */
  lemma AskableIff(asked: seq<Read>)
    ensures Askable(asked) <==>
      && |asked| >= 1
      && (forall i, j :: 0 <= i < |asked| && 0 <= j < |asked| ==> asked[i].target.kind == asked[j].target.kind)
      && (forall i :: 0 <= i < |asked| ==> 1 <= asked[i].target.number < 9_007_199_254_740_992)
      && (forall i :: 0 <= i < |asked| ==> Trimmed(asked[i].selection) != [])
  {
    hide Blank, Trimmed;
    forall i | 0 <= i < |asked| ensures Blank(asked[i].selection) <==> Trimmed(asked[i].selection) == [] {
      BlankIff(asked[i].selection);
    }
  }

  /** The alias record of an askable query: read i under alias r<i>, in request order. */
  function Aliases(asked: seq<Read>): seq<Entry> {
    seq(|asked|, i requires 0 <= i < |asked| => Entry(Alias(i), asked[i]))
  }

  method BuildQuery(asked: seq<Read>) returns (aliases: Option<seq<Entry>>)
    ensures aliases.Some? == Askable(asked)
    ensures aliases.Some? ==> aliases.value == Aliases(asked)
  {
    hide Blank, IsNumber, Alias;
    if asked == [] {
      return None;
    }
    var kind := asked[0].target.kind;
    if exists i :: 0 <= i < |asked| && asked[i].target.kind != kind {
      return None;
    }
    var record: seq<Entry> := [];
    var index := 0;
    while index < |asked|
      invariant 0 <= index <= |asked|
      invariant record == Aliases(asked[..index])
      invariant forall i :: 0 <= i < index ==> IsNumber(asked[i].target.number) && !Blank(asked[i].selection)
    {
      if !IsNumber(asked[index].target.number) || Blank(asked[index].selection) {
        return None;
      }
      forall i | 0 <= i < |record| ensures record[i].alias != Alias(index) {
        if record[i].alias == Alias(index) { AliasInjective(i, index); }
      }
      AssignFresh(record, Alias(index), asked[index]);
      record := Assign(record, Alias(index), asked[index]);
      index := index + 1;
    }
    assert asked[..index] == asked;
    return Some(record);
  }

  // ---------------------------------------------------------------------------
  // Reading the answer
  // ---------------------------------------------------------------------------

  /** A server answering each alias with the object its last definition asked for. */
  function Respond(aliases: seq<Entry>, world: Object -> Option<string>): map<string, Option<string>> {
    if aliases == [] then map[]
    else
      var last := aliases[|aliases| - 1];
      Respond(aliases[..|aliases| - 1], world)[last.alias := world(last.read.target)]
  }

  /** readSingleObjectRows: one row per property, in order; an unanswered alias stays empty. */
  function Rows(aliases: seq<Entry>, root: map<string, Option<string>>): seq<Row> {
    seq(|aliases|, i requires 0 <= i < |aliases| =>
      Row(aliases[i].read, if aliases[i].alias in root then root[aliases[i].alias] else None))
  }

  lemma {:induction false} RespondAt(asked: seq<Read>, n: nat, world: Object -> Option<string>, i: nat)
    requires i < n <= |asked|
    ensures
      var root := Respond(Aliases(asked)[..n], world);
      Alias(i) in root && root[Alias(i)] == world(asked[i].target)
  {
    hide Alias;
    var entries := Aliases(asked)[..n];
    assert entries[..n - 1] == Aliases(asked)[..n - 1];
    if i < n - 1 {
      RespondAt(asked, n - 1, world, i);
      if Alias(i) == Alias(n - 1) { AliasInjective(i, n - 1); }
    }
  }

  /**
   Row i of the answer is the row of read i: its own kind, owner, repository and
   number, whatever the server knows about the other objects.
   */
  lemma RowsAlign(asked: seq<Read>, world: Object -> Option<string>, i: nat)
    requires i < |asked|
    ensures
      var rows := Rows(Aliases(asked), Respond(Aliases(asked), world));
      |rows| == |asked| && rows[i] == Row(asked[i], world(asked[i].target))
  {
    RespondAt(asked, |asked|, world, i);
    assert Aliases(asked)[..|asked|] == Aliases(asked);
  }
}
