/** The store object: the database behind it and the two read caches it keeps. */
module BrainStore {
  import opened Wrappers
  import opened BrainIndex
  import Runs = BrainRuns

  lemma LinkByRids(w: World, db: Database, from: nat, to: nat, kind: string)
    requires Holds(db.artifacts, from) && Holds(db.artifacts, to) && kind in w.connectionKinds
    ensures Link(w, db, ByRid(from), ByRid(to), Some(kind)) ==
            Returned(Linked(db, from, to, kind), LinkValue(db, from, to, kind))
  {
    hide Linked, LinkValue;
    FindRidFinds(db.artifacts, from);
    FindRidFinds(db.artifacts, to);
  }

  /** A tag's own capture stops at the insertion. */
  lemma CaptureOfTag(w: World, db: Database, tag: string, linker: AutoLinker)
    requires Runs.Sound(w)
    ensures
      var content, metadata := TagContent(w, tag), TagInput(w, tag).metadata;
      Capture(w, db, TagInput(w, tag), linker) ==
      Returned(Ensured(w, db, content, metadata), EnsuredValue(w, db, content, metadata))
  {
    hide ByHash, Inserted;
  }

  lemma EnsuredHolds(w: World, db: Database, content: Content, metadata: Metadata)
    ensures db.artifacts <= Ensured(w, db, content, metadata).artifacts
    ensures Holds(Ensured(w, db, content, metadata).artifacts, EnsuredValue(w, db, content, metadata).rid)
  {
    if ByHash(db, w.hash(content)).Some? {
      FindRidFinds(db.artifacts, db.kv[HashKey(w.hash(content))]);
    } else {
      Runs.InsertedRow(w, db, content, metadata);
    }
  }

  lemma TagStepHolds(w: World, db: Database, rid: nat, tag: string)
    requires Holds(db.artifacts, rid)
    ensures Holds(TagStep(w, db, rid, tag).artifacts, rid)
  {
    hide Holds, Ensured, EnsuredValue;
    var content, metadata := TagContent(w, tag), TagInput(w, tag).metadata;
    EnsuredHolds(w, db, content, metadata);
    HoldsGrows(db.artifacts, Ensured(w, db, content, metadata).artifacts, rid);
  }

  class Store {
    const w: World
    var db: Database
    var artifactCache: Option<seq<Artifact>>
    var connectionCache: Option<seq<Connection>>

    /** A filled cache holds the stored rows. */
    ghost predicate Valid()
      reads this
    {
      && Runs.Sound(w)
      && (artifactCache.Some? ==> artifactCache.value == db.artifacts)
      && (connectionCache.Some? ==> connectionCache.value == db.connections)
    }

    constructor (w: World)
      requires Runs.Sound(w)
      ensures Valid() && this.w == w && db == Runs.EMPTY
    {
      this.w, db, artifactCache, connectionCache := w, Runs.EMPTY, None, None;
    }

    method ListArtifacts() returns (rows: seq<Artifact>)
      requires Valid()
      modifies `artifactCache
      ensures Valid() && rows == db.artifacts
    {
      if artifactCache.None? { artifactCache := Some(db.artifacts); }
      return artifactCache.value;
    }

    method ListConnections() returns (rows: seq<Connection>)
      requires Valid()
      modifies `connectionCache
      ensures Valid() && rows == db.connections
    {
      if connectionCache.None? { connectionCache := Some(db.connections); }
      return connectionCache.value;
    }

    method GetArtifact(ref: Ref) returns (a: Option<Artifact>)
      requires Valid()
      modifies `artifactCache
      ensures Valid() && a == Find(db.artifacts, ref)
    {
      var rows := ListArtifacts();
      a := Find(rows, ref);
    }

    /** None stands for the errors: an unknown end, or an unknown kind. */
    method LinkArtifacts(from: Ref, to: Ref, kind: Option<string>) returns (r: Option<Connection>)
      requires Valid()
      modifies this
      ensures Valid()
      ensures
        var out := Link(w, old(db), from, to, kind);
        db == out.db && r == if out.Threw? then None else Some(out.value)
    {
      hide Find, FindConnection, Runs.Sound;
      var a := GetArtifact(from);
      var b := GetArtifact(to);
      if a.None? || b.None? { return None; }
      var k := if kind.Some? then kind.value else w.defaultConnection;
      if k !in w.connectionKinds { return None; }
      var from, to := a.value.rid, b.value.rid;
      var known := Lookup(db.kv, EdgeKey(from, to, k));
      if known.Some? {
        var rows := ListConnections();
        var found := FindConnection(rows, known.value);
        if found.Some? { return found; }
      }
      var row := Connection(db.next, k, from, to);
      db := Database(db.artifacts, db.connections + [row], db.kv[EdgeKey(from, to, k) := row.rid], db.next + 1);
      connectionCache := None;
      return Some(row);
    }

    /** Applies the proposals in turn; `threw` when the auto-linker's error is passed on. */
    method AutoLinkArtifact(a: Artifact, existing: seq<Artifact>, linker: AutoLinker) returns (threw: bool)
      requires Valid()
      modifies this
      ensures Valid()
      ensures db == AutoLinked(w, old(db), existing, a.rid, a.metadata, linker)
      ensures threw == AutoLinkThrows(w, existing, a.rid, a.metadata, linker)
    {
      if linker.Absent? || IsDerived(a.metadata) { return false; }
      if !(exists i :: 0 <= i < |existing| && existing[i].rid != a.rid) { return false; }
      var ps := linker.proposals;
      ghost var before := db;
      for i := 0 to |ps|
        invariant Valid() && db == Proposed(w, before, existing, a.rid, ps[..i])
      {
        assert ps[..i + 1][..i] == ps[..i];
        ApplyProposal(ps[i], a.rid, existing);
      }
      assert ps[..|ps|] == ps;
      threw := linker.fails && w.throwErrors;
    }

    method ApplyProposal(p: Proposal, rid: nat, existing: seq<Artifact>)
      requires Valid()
      modifies this
      ensures Valid() && db == ProposalStep(w, old(db), existing, rid, p)
    {
      if p.kind !in w.autoLinkKinds { return; }
      var a := GetArtifact(p.from);
      var b := GetArtifact(p.to);
      if a.None? || b.None? { return; }
      var from, to := a.value.rid, b.value.rid;
      var connectsNew := from == rid || to == rid;
      var connectsExisting := (from != rid && Holds(existing, from)) || (to != rid && Holds(existing, to));
      if !connectsNew || !connectsExisting || from == to { return; }
      FindHolds(db.artifacts, p.from);
      FindHolds(db.artifacts, p.to);
      LinkByRids(w, db, from, to, p.kind);
      var linked := LinkArtifacts(ByRid(from), ByRid(to), Some(p.kind));
    }

    /** Ends at once for a tag artifact, which is what stops the recursion. */
    method MaterializeTagConnections(a: Artifact, linker: AutoLinker)
      requires Valid() && Holds(db.artifacts, a.rid)
      modifies this
      ensures Valid()
      ensures db == if IsTag(w, a.metadata) then old(db) else Tagged(w, old(db), a.rid, a.content.tags)
      decreases if IsTag(w, a.metadata) then 0 else 1, 0
    {
      if IsTag(w, a.metadata) { return; }
      var tags := a.content.tags;
      ghost var before := db;
      for i := 0 to |tags|
        invariant Valid() && db == Tagged(w, before, a.rid, tags[..i]) && Holds(db.artifacts, a.rid)
      {
        assert tags[..i + 1][..i] == tags[..i];
        ghost var at := db;
        TagStepHolds(w, at, a.rid, tags[i]);
        CaptureOfTag(w, at, tags[i], linker);
        EnsuredHolds(w, at, TagContent(w, tags[i]), TagInput(w, tags[i]).metadata);
        var tag := CaptureArtifact(TagInput(w, tags[i]), linker);
        HoldsGrows(at.artifacts, db.artifacts, a.rid);
        LinkByRids(w, db, a.rid, tag.value.rid, w.tagged);
        var linked := LinkArtifacts(ByRid(a.rid), ByRid(tag.value.rid), Some(w.tagged));
      }
      assert tags[..|tags|] == tags;
    }

    /** None stands for the errors: an unknown kind, or a passed-on auto-linker error. */
    method CaptureArtifact(input: Input, linker: AutoLinker) returns (r: Option<Artifact>)
      requires Valid()
      modifies this
      ensures Valid()
      ensures
        var out := Capture(w, old(db), input, linker);
        db == out.db && r == if out.Threw? then None else Some(out.value)
      decreases if IsTag(w, input.metadata) then 0 else 1, 1
    {
      hide AutoLinked, AutoLinkThrows, Tagged, Runs.Sound;
      var kind := NormalizeKind(w, input.kind);
      if kind.None? { return None; }
      var content := ContentOf(w, kind.value, input);
      var hash := w.hash(content);
      var known := Lookup(db.kv, HashKey(hash));
      if known.Some? {
        var found := GetArtifact(ByRid(known.value));
        if found.Some? { return found; }
      }
      var existing := ListArtifacts();
      var row := RowOf(w, content, input.metadata, db.next);
      db := Database(db.artifacts + [row], db.connections, db.kv[HashKey(hash) := row.rid], db.next + 1);
      artifactCache := None;
      assert db.artifacts[|existing|].rid == row.rid;
      var threw := AutoLinkArtifact(row, existing, linker);
      if threw { return None; }
      AutoLinkedArtifacts(w, Inserted(w, old(db), content, input.metadata), existing, row, linker);
      MaterializeTagConnections(row, linker);
      return Some(row);
    }
  }

  lemma {:induction false} ProposedArtifacts(
    w: World, db: Database, existing: seq<Artifact>, rid: nat, ps: seq<Proposal>)
    ensures Proposed(w, db, existing, rid, ps).artifacts == db.artifacts
  {
    if ps != [] { ProposedArtifacts(w, db, existing, rid, ps[..|ps| - 1]); }
  }

  lemma AutoLinkedArtifacts(w: World, db: Database, existing: seq<Artifact>, row: Artifact, linker: AutoLinker)
    ensures AutoLinked(w, db, existing, row.rid, row.metadata, linker).artifacts == db.artifacts
  {
    if Asked(linker, row.metadata, existing, row.rid) {
      ProposedArtifacts(w, db, existing, row.rid, linker.proposals);
    }
  }
}
