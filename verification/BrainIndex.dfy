/**
 The stored rows of the brain store, its key-value index, and what `capture` and
 `link` do to them. The auto-linker's answer is an arbitrary list of proposals.
 */
module BrainIndex {
  import opened Wrappers

  datatype Metadata = Metadata(derived: bool, derivedKind: Option<string>)

  /** What the content hash covers. */
  datatype Content = Content(
    kind: string,
    title: string,
    text: string,
    tags: seq<string>,
    path: Option<string>,
    session: Option<string>)

  datatype Artifact = Artifact(rid: nat, id: string, content: Content, hash: string, metadata: Metadata)

  datatype Connection = Connection(rid: nat, kind: string, from: nat, to: nat)

  datatype Key = HashKey(hash: string) | EdgeKey(from: nat, to: nat, kind: string)

  /** `next` is the next row id the database hands out; ids are never reused. */
  datatype Database = Database(
    artifacts: seq<Artifact>,
    connections: seq<Connection>,
    kv: map<Key, nat>,
    next: nat)

  datatype Input = Input(
    title: string,
    text: string,
    kind: Option<string>,
    tags: seq<string>,
    path: Option<string>,
    session: Option<string>,
    metadata: Metadata)

  datatype Ref = ByRid(rid: nat) | ById(id: string)

  datatype Proposal = Proposal(from: Ref, to: Ref, kind: string)

  /** The auto-linker: absent, or answering proposals and then possibly failing. */
  datatype AutoLinker = Absent | Answers(proposals: seq<Proposal>, fails: bool)

  /** The words and functions the store is built with. */
  datatype World = World(
    artifactKinds: set<string>,
    aliases: map<string, string>,
    defaultKind: string,
    connectionKinds: set<string>,
    defaultConnection: string,
    autoLinkKinds: set<string>,
    tagged: string,
    tagKind: string,
    tagMark: string,
    tagTags: seq<string>,
    tagText: string -> string,
    hash: Content -> string,
    id: (string, string) -> string,
    tidy: seq<string> -> seq<string>,
    throwErrors: bool)

  datatype Outcome<T> = Threw(db: Database) | Returned(db: Database, value: T)

  // ---------------------------------------------------------------------------
  // Lookups
  // ---------------------------------------------------------------------------

  function FindRid(rows: seq<Artifact>, rid: nat): Option<Artifact> {
    if rows == [] then None else if rows[0].rid == rid then Some(rows[0]) else FindRid(rows[1..], rid)
  }

  function FindId(rows: seq<Artifact>, id: string): Option<Artifact> {
    if rows == [] then None else if rows[0].id == id then Some(rows[0]) else FindId(rows[1..], id)
  }

  function Find(rows: seq<Artifact>, ref: Ref): Option<Artifact> {
    match ref
    case ByRid(rid) => FindRid(rows, rid)
    case ById(id) => FindId(rows, id)
  }

  function FindConnection(rows: seq<Connection>, rid: nat): Option<Connection> {
    if rows == [] then None else if rows[0].rid == rid then Some(rows[0]) else FindConnection(rows[1..], rid)
  }

  function Lookup(kv: map<Key, nat>, key: Key): Option<nat> {
    if key in kv then Some(kv[key]) else None
  }

  /** The artifact the index names for a hash, if its row is there. */
  function ByHash(db: Database, hash: string): Option<Artifact> {
    var rid := Lookup(db.kv, HashKey(hash));
    if rid.None? then None else FindRid(db.artifacts, rid.value)
  }

  function ByEdge(db: Database, from: nat, to: nat, kind: string): Option<Connection> {
    var rid := Lookup(db.kv, EdgeKey(from, to, kind));
    if rid.None? then None else FindConnection(db.connections, rid.value)
  }

  // ---------------------------------------------------------------------------
  // Linking
  // ---------------------------------------------------------------------------

  /** An edge between known rows: the indexed one, or a new one. */
  function Linked(db: Database, from: nat, to: nat, kind: string): Database {
    if ByEdge(db, from, to, kind).Some? then db else EdgeInserted(db, from, to, kind)
  }

  function EdgeInserted(db: Database, from: nat, to: nat, kind: string): Database {
    Database(db.artifacts, db.connections + [Connection(db.next, kind, from, to)],
             db.kv[EdgeKey(from, to, kind) := db.next], db.next + 1)
  }

  function LinkValue(db: Database, from: nat, to: nat, kind: string): Connection {
    var found := ByEdge(db, from, to, kind);
    if found.Some? then found.value else Connection(db.next, kind, from, to)
  }

  function Link(w: World, db: Database, from: Ref, to: Ref, kind: Option<string>): Outcome<Connection> {
    var a, b := Find(db.artifacts, from), Find(db.artifacts, to);
    var k := if kind.Some? then kind.value else w.defaultConnection;
    if a.None? || b.None? || k !in w.connectionKinds then Threw(db)
    else Returned(Linked(db, a.value.rid, b.value.rid, k), LinkValue(db, a.value.rid, b.value.rid, k))
  }

  // ---------------------------------------------------------------------------
  // Capturing
  // ---------------------------------------------------------------------------

  function NormalizeKind(w: World, kind: Option<string>): Option<string> {
    var given := if kind.Some? then kind.value else w.defaultKind;
    var mapped := if given in w.aliases then w.aliases[given] else given;
    if mapped in w.artifactKinds then Some(mapped) else None
  }

  function ContentOf(w: World, kind: string, input: Input): Content {
    Content(kind, input.title, input.text, w.tidy(input.tags), input.path, input.session)
  }

  function RowOf(w: World, content: Content, metadata: Metadata, rid: nat): Artifact {
    Artifact(rid, w.id(content.title, w.hash(content)), content, w.hash(content), metadata)
  }

  /** The row of a new artifact together with its index entry. */
  function Inserted(w: World, db: Database, content: Content, metadata: Metadata): Database {
    Database(db.artifacts + [RowOf(w, content, metadata, db.next)], db.connections,
             db.kv[HashKey(w.hash(content)) := db.next], db.next + 1)
  }

  predicate IsTag(w: World, m: Metadata) {
    m.derivedKind == Some(w.tagMark)
  }

  predicate IsDerived(m: Metadata) {
    m.derived || m.derivedKind.Some?
  }

  function TagInput(w: World, tag: string): Input {
    Input(tag, w.tagText(tag), Some(w.tagKind), w.tagTags, None, None, Metadata(true, Some(w.tagMark)))
  }

  function TagContent(w: World, tag: string): Content {
    ContentOf(w, w.tagKind, TagInput(w, tag))
  }

  function TagHash(w: World, tag: string): string {
    w.hash(TagContent(w, tag))
  }

  /** Find or insert: what a capture comes to when nothing follows the insertion. */
  function Ensured(w: World, db: Database, content: Content, metadata: Metadata): Database {
    if ByHash(db, w.hash(content)).Some? then db else Inserted(w, db, content, metadata)
  }

  function EnsuredValue(w: World, db: Database, content: Content, metadata: Metadata): Artifact {
    var found := ByHash(db, w.hash(content));
    if found.Some? then found.value else RowOf(w, content, metadata, db.next)
  }

  /** One tag: its artifact, then the edge to it. */
  function TagStep(w: World, db: Database, rid: nat, tag: string): Database {
    var content, metadata := TagContent(w, tag), TagInput(w, tag).metadata;
    Linked(Ensured(w, db, content, metadata), rid, EnsuredValue(w, db, content, metadata).rid, w.tagged)
  }

  function Tagged(w: World, db: Database, rid: nat, tags: seq<string>): Database {
    if tags == [] then db else TagStep(w, Tagged(w, db, rid, tags[..|tags| - 1]), rid, tags[|tags| - 1])
  }

  predicate Holds(rows: seq<Artifact>, rid: nat) {
    exists i :: 0 <= i < |rows| && rows[i].rid == rid
  }

  /** The proposals that may become edges: an allowed kind between the new artifact and another. */
  predicate Acceptable(w: World, db: Database, existing: seq<Artifact>, rid: nat, p: Proposal) {
    var a, b := Find(db.artifacts, p.from), Find(db.artifacts, p.to);
    && p.kind in w.autoLinkKinds
    && a.Some? && b.Some?
    && (a.value.rid == rid || b.value.rid == rid)
    && ((a.value.rid != rid && Holds(existing, a.value.rid)) || (b.value.rid != rid && Holds(existing, b.value.rid)))
    && a.value.rid != b.value.rid
  }

  function ProposalStep(w: World, db: Database, existing: seq<Artifact>, rid: nat, p: Proposal): Database {
    if Acceptable(w, db, existing, rid, p)
    then Linked(db, Find(db.artifacts, p.from).value.rid, Find(db.artifacts, p.to).value.rid, p.kind)
    else db
  }

  function Proposed(w: World, db: Database, existing: seq<Artifact>, rid: nat, ps: seq<Proposal>): Database {
    if ps == [] then db
    else ProposalStep(w, Proposed(w, db, existing, rid, ps[..|ps| - 1]), existing, rid, ps[|ps| - 1])
  }

  /** Whether the auto-linker is asked at all. */
  predicate Asked(linker: AutoLinker, metadata: Metadata, existing: seq<Artifact>, rid: nat) {
    linker.Answers? && !IsDerived(metadata) && exists i :: 0 <= i < |existing| && existing[i].rid != rid
  }

  function AutoLinked(
    w: World, db: Database, existing: seq<Artifact>, rid: nat, metadata: Metadata, linker: AutoLinker):
    Database
  {
    if Asked(linker, metadata, existing, rid) then Proposed(w, db, existing, rid, linker.proposals) else db
  }

  predicate AutoLinkThrows(w: World, existing: seq<Artifact>, rid: nat, metadata: Metadata, linker: AutoLinker) {
    Asked(linker, metadata, existing, rid) && linker.fails && w.throwErrors
  }

  /** Everything that follows the insertion of a new artifact. */
  function Completed(w: World, db: Database, a: Artifact, existing: seq<Artifact>, linker: AutoLinker):
    Outcome<Artifact>
  {
    var linked := AutoLinked(w, db, existing, a.rid, a.metadata, linker);
    if AutoLinkThrows(w, existing, a.rid, a.metadata, linker) then Threw(linked)
    else if IsTag(w, a.metadata) then Returned(linked, a)
    else Returned(Tagged(w, linked, a.rid, a.content.tags), a)
  }

  function Capture(w: World, db: Database, input: Input, linker: AutoLinker): Outcome<Artifact> {
    var kind := NormalizeKind(w, input.kind);
    if kind.None? then Threw(db)
    else
      var content := ContentOf(w, kind.value, input);
      var found := ByHash(db, w.hash(content));
      if found.Some? then Returned(db, found.value)
      else
        Completed(w, Inserted(w, db, content, input.metadata), RowOf(w, content, input.metadata, db.next),
                  db.artifacts, linker)
  }

  // ---------------------------------------------------------------------------
  // What every operation keeps
  // ---------------------------------------------------------------------------

  predicate RidsFresh(db: Database) {
    && (forall i :: 0 <= i < |db.artifacts| ==> db.artifacts[i].rid < db.next)
    && (forall i :: 0 <= i < |db.connections| ==> db.connections[i].rid < db.next)
  }

  predicate RidsDistinct(db: Database) {
    && (forall i, j :: 0 <= i < j < |db.artifacts| ==> db.artifacts[i].rid != db.artifacts[j].rid)
    && (forall i, j :: 0 <= i < j < |db.connections| ==> db.connections[i].rid != db.connections[j].rid)
  }

  predicate HashIndexed(w: World, db: Database) {
    forall i :: 0 <= i < |db.artifacts| ==>
      && db.artifacts[i].hash == w.hash(db.artifacts[i].content)
      && Lookup(db.kv, HashKey(db.artifacts[i].hash)) == Some(db.artifacts[i].rid)
  }

  predicate EdgeIndexed(db: Database) {
    forall i :: 0 <= i < |db.connections| ==>
      var c := db.connections[i];
      Lookup(db.kv, EdgeKey(c.from, c.to, c.kind)) == Some(c.rid)
  }

  predicate HasHash(rows: seq<Artifact>, hash: string) {
    exists i :: 0 <= i < |rows| && rows[i].hash == hash
  }

  predicate HasEdge(rows: seq<Connection>, from: nat, to: nat, kind: string) {
    exists i :: 0 <= i < |rows| && rows[i].from == from && rows[i].to == to && rows[i].kind == kind
  }

  predicate Backed(db: Database, key: Key) {
    match key
    case HashKey(hash) => HasHash(db.artifacts, hash)
    case EdgeKey(from, to, kind) => HasEdge(db.connections, from, to, kind)
  }

  predicate IndexBacked(db: Database) {
    forall key :: key in db.kv ==> Backed(db, key)
  }

  predicate NoDangling(db: Database) {
    forall i :: 0 <= i < |db.connections| ==>
      Holds(db.artifacts, db.connections[i].from) && Holds(db.artifacts, db.connections[i].to)
  }

  ghost predicate Inv(w: World, db: Database) {
    RidsFresh(db) && RidsDistinct(db) && HashIndexed(w, db) && EdgeIndexed(db) && IndexBacked(db) && NoDangling(db)
  }

  // ---------------------------------------------------------------------------
  // Lookups find what the invariant promises
  // ---------------------------------------------------------------------------

  lemma {:induction false} FindRidFinds(rows: seq<Artifact>, rid: nat)
    ensures FindRid(rows, rid).Some? <==> Holds(rows, rid)
    ensures FindRid(rows, rid).Some? ==> FindRid(rows, rid).value.rid == rid && FindRid(rows, rid).value in rows
  {
    if rows != [] {
      FindRidFinds(rows[1..], rid);
      if Holds(rows, rid) && rows[0].rid != rid {
        var i :| 0 <= i < |rows| && rows[i].rid == rid;
        assert rows[1..][i - 1].rid == rid;
      }
      if Holds(rows[1..], rid) {
        var i :| 0 <= i < |rows[1..]| && rows[1..][i].rid == rid;
        assert rows[i + 1].rid == rid;
      }
    }
  }

  lemma {:induction false} FindIdFinds(rows: seq<Artifact>, id: string)
    ensures FindId(rows, id).Some? ==> FindId(rows, id).value in rows
  {
    if rows != [] { FindIdFinds(rows[1..], id); }
  }

  lemma FindHolds(rows: seq<Artifact>, ref: Ref)
    ensures Find(rows, ref).Some? ==> Holds(rows, Find(rows, ref).value.rid)
  {
    match ref {
      case ByRid(rid) => FindRidFinds(rows, rid);
      case ById(id) => FindIdFinds(rows, id);
    }
  }

  lemma {:induction false} FindConnectionFinds(rows: seq<Connection>, rid: nat, i: nat)
    requires i < |rows| && rows[i].rid == rid
    ensures FindConnection(rows, rid).Some?
  {
    if rows[0].rid != rid { FindConnectionFinds(rows[1..], rid, i - 1); }
  }

  /** A hash is found exactly when the index knows it. */
  lemma ByHashIff(w: World, db: Database, hash: string)
    requires HashIndexed(w, db) && IndexBacked(db)
    ensures ByHash(db, hash).Some? <==> HashKey(hash) in db.kv
    ensures ByHash(db, hash).Some? ==> ByHash(db, hash).value.hash == hash || !RidsDistinct(db)
    ensures ByHash(db, hash).Some? ==> ByHash(db, hash).value.rid == db.kv[HashKey(hash)]
    ensures ByHash(db, hash).Some? ==> ByHash(db, hash).value in db.artifacts
  {
    hide RidsDistinct, FindRid;
    if HashKey(hash) in db.kv {
      assert Backed(db, HashKey(hash));
      var i :| 0 <= i < |db.artifacts| && db.artifacts[i].hash == hash;
      var rid := db.kv[HashKey(hash)];
      FindRidFinds(db.artifacts, rid);
      assert db.artifacts[i].rid == rid;
      var a := FindRid(db.artifacts, rid).value;
      var j :| 0 <= j < |db.artifacts| && db.artifacts[j] == a;
      if RidsDistinct(db) { SameRid(db, i, j); }
    }
  }

  lemma SameRid(db: Database, i: nat, j: nat)
    requires RidsDistinct(db) && i < |db.artifacts| && j < |db.artifacts| && db.artifacts[i].rid == db.artifacts[j].rid
    ensures i == j
  {
  }

  lemma ByEdgeIff(db: Database, from: nat, to: nat, kind: string)
    requires EdgeIndexed(db) && IndexBacked(db)
    ensures ByEdge(db, from, to, kind).Some? <==> EdgeKey(from, to, kind) in db.kv
  {
    if EdgeKey(from, to, kind) in db.kv {
      assert Backed(db, EdgeKey(from, to, kind));
      var i :| 0 <= i < |db.connections| && db.connections[i].from == from && db.connections[i].to == to &&
               db.connections[i].kind == kind;
      FindConnectionFinds(db.connections, db.kv[EdgeKey(from, to, kind)], i);
    }
  }

  // ---------------------------------------------------------------------------
  // Steps keep the invariant and only add
  // ---------------------------------------------------------------------------

  /** Nothing is ever removed or reindexed. */
  predicate Extends(before: map<Key, nat>, after: map<Key, nat>) {
    forall key :: key in before ==> key in after && after[key] == before[key]
  }

  predicate Grows(a: Database, b: Database) {
    Extends(a.kv, b.kv) && a.artifacts <= b.artifacts && a.connections <= b.connections && a.next <= b.next
  }

  lemma HoldsGrows(a: seq<Artifact>, b: seq<Artifact>, rid: nat)
    requires a <= b && Holds(a, rid)
    ensures Holds(b, rid)
  {
    var i :| 0 <= i < |a| && a[i].rid == rid;
    assert b[i].rid == rid;
  }

  lemma InsertKeeps(w: World, db: Database, content: Content, metadata: Metadata)
    requires Inv(w, db) && HashKey(w.hash(content)) !in db.kv
    ensures Inv(w, Inserted(w, db, content, metadata)) && Grows(db, Inserted(w, db, content, metadata))
    ensures Holds(Inserted(w, db, content, metadata).artifacts, db.next)
  {
    hide IndexBacked, NoDangling;
    var db' := Inserted(w, db, content, metadata);
    var n := |db.artifacts|;
    assert db'.artifacts[n] == RowOf(w, content, metadata, db.next);
    assert Grows(db, db');
    InsertBacked(w, db, content, metadata);
    InsertDangles(w, db, content, metadata);
  }

  lemma InsertDangles(w: World, db: Database, content: Content, metadata: Metadata)
    requires NoDangling(db)
    ensures NoDangling(Inserted(w, db, content, metadata))
  {
    hide Holds;
    var db' := Inserted(w, db, content, metadata);
    forall i | 0 <= i < |db.connections|
      ensures Holds(db'.artifacts, db.connections[i].from) && Holds(db'.artifacts, db.connections[i].to)
    {
      HoldsGrows(db.artifacts, db'.artifacts, db.connections[i].from);
      HoldsGrows(db.artifacts, db'.artifacts, db.connections[i].to);
    }
  }

  lemma InsertBacked(w: World, db: Database, content: Content, metadata: Metadata)
    requires IndexBacked(db) && Grows(db, Inserted(w, db, content, metadata))
    ensures IndexBacked(Inserted(w, db, content, metadata))
  {
    var db' := Inserted(w, db, content, metadata);
    assert db'.artifacts[|db.artifacts|].hash == w.hash(content);
  }

  lemma EdgeBacked(db: Database, from: nat, to: nat, kind: string)
    requires IndexBacked(db) && Grows(db, EdgeInserted(db, from, to, kind))
    ensures IndexBacked(EdgeInserted(db, from, to, kind))
  {
    var db' := EdgeInserted(db, from, to, kind);
    assert db'.connections[|db.connections|] == Connection(db.next, kind, from, to);
  }

  lemma EdgeRows(db: Database, from: nat, to: nat, kind: string)
    requires RidsFresh(db) && RidsDistinct(db) && EdgeIndexed(db) && EdgeKey(from, to, kind) !in db.kv
    ensures
      var db' := EdgeInserted(db, from, to, kind);
      RidsFresh(db') && RidsDistinct(db') && EdgeIndexed(db') && Grows(db, db')
  {
  }

  lemma EdgeHashes(w: World, db: Database, from: nat, to: nat, kind: string)
    requires HashIndexed(w, db)
    ensures HashIndexed(w, EdgeInserted(db, from, to, kind))
  {
  }

  lemma EdgeEnds(db: Database, from: nat, to: nat, kind: string)
    requires NoDangling(db) && Holds(db.artifacts, from) && Holds(db.artifacts, to)
    ensures NoDangling(EdgeInserted(db, from, to, kind))
  {
    hide Holds;
  }

  lemma LinkKeeps(w: World, db: Database, from: nat, to: nat, kind: string)
    requires Inv(w, db) && Holds(db.artifacts, from) && Holds(db.artifacts, to)
    ensures Inv(w, Linked(db, from, to, kind)) && Grows(db, Linked(db, from, to, kind))
    ensures EdgeKey(from, to, kind) in Linked(db, from, to, kind).kv
    ensures Linked(db, from, to, kind).artifacts == db.artifacts
  {
    hide RidsFresh, RidsDistinct, HashIndexed, EdgeIndexed, IndexBacked, NoDangling, Holds, ByEdge;
    ByEdgeIff(db, from, to, kind);
    if ByEdge(db, from, to, kind).None? {
      EdgeRows(db, from, to, kind);
      EdgeHashes(w, db, from, to, kind);
      EdgeEnds(db, from, to, kind);
      EdgeBacked(db, from, to, kind);
    }
  }

  lemma EnsureKeeps(w: World, db: Database, content: Content, metadata: Metadata)
    requires Inv(w, db)
    ensures
      var db' := Ensured(w, db, content, metadata);
      && Inv(w, db') && Grows(db, db')
      && Lookup(db'.kv, HashKey(w.hash(content))) == Some(EnsuredValue(w, db, content, metadata).rid)
      && Holds(db'.artifacts, EnsuredValue(w, db, content, metadata).rid)
  {
    ByHashIff(w, db, w.hash(content));
    if ByHash(db, w.hash(content)).None? {
      InsertKeeps(w, db, content, metadata);
    } else {
      FindRidFinds(db.artifacts, db.kv[HashKey(w.hash(content))]);
    }
  }

  lemma GrowsTransitive(a: Database, b: Database, c: Database)
    requires Grows(a, b) && Grows(b, c)
    ensures Grows(a, c)
  {
  }

  // ---------------------------------------------------------------------------
  // What lookups and kinds mean
  // ---------------------------------------------------------------------------

  predicate Names(ref: Ref, a: Artifact) {
    match ref
    case ByRid(rid) => a.rid == rid
    case ById(id) => a.id == id
  }

  /** A reference finds the first row it names, and nothing exactly when it names none. */
  lemma {:induction false} FindIs(rows: seq<Artifact>, ref: Ref, i: nat)
    requires i <= |rows| && forall j :: 0 <= j < i ==> !Names(ref, rows[j])
    ensures i == |rows| ==> Find(rows, ref).None?
    ensures i < |rows| && Names(ref, rows[i]) ==> Find(rows, ref) == Some(rows[i])
  {
    if i > 0 { FindIs(rows[1..], ref, i - 1); }
  }

  /** So does a row id among connections. */
  lemma {:induction false} FindConnectionIs(rows: seq<Connection>, rid: nat, i: nat)
    requires i <= |rows| && forall j :: 0 <= j < i ==> rows[j].rid != rid
    ensures i == |rows| ==> FindConnection(rows, rid).None?
    ensures i < |rows| && rows[i].rid == rid ==> FindConnection(rows, rid) == Some(rows[i])
  {
    if i > 0 { FindConnectionIs(rows[1..], rid, i - 1); }
  }

  /** The kind a capture is stored under: the alias's kind, or the word itself, if the schema has that kind. */
  lemma NormalizedIs(w: World, kind: Option<string>, k: string)
    ensures
      var given := match kind case Some(word) => word case None => w.defaultKind;
      NormalizeKind(w, kind) == Some(k) <==>
      k in w.artifactKinds && (if given in w.aliases then w.aliases[given] == k else given == k)
  {
  }

  /** The edge the index names is the stored one between the two rows. */
  lemma FoundEdge(db: Database, from: nat, to: nat, kind: string)
    requires RidsDistinct(db) && EdgeIndexed(db) && IndexBacked(db) && ByEdge(db, from, to, kind).Some?
    ensures
      var c := ByEdge(db, from, to, kind).value;
      c in db.connections && c.from == from && c.to == to && c.kind == kind
  {
    hide FindConnection;
    assert Backed(db, EdgeKey(from, to, kind));
    var i :| 0 <= i < |db.connections| && db.connections[i].from == from && db.connections[i].to == to &&
             db.connections[i].kind == kind;
    FindConnectionIs(db.connections, db.connections[i].rid, i);
  }
}
