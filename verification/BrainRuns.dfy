/** Whole captures and whole runs of captures and links. */
module BrainRuns {
  import opened Wrappers
  import opened BrainIndex

  // ---------------------------------------------------------------------------
  // Tag edges
  // ---------------------------------------------------------------------------

  /** The index knows the tag's artifact and the edge to it. */
  predicate TaggedFor(w: World, kv: map<Key, nat>, rid: nat, tag: string) {
    && HashKey(TagHash(w, tag)) in kv
    && EdgeKey(rid, kv[HashKey(TagHash(w, tag))], w.tagged) in kv
  }

  predicate TaggedForAll(w: World, kv: map<Key, nat>, rid: nat, tags: seq<string>) {
    forall k :: 0 <= k < |tags| ==> TaggedFor(w, kv, rid, tags[k])
  }

  predicate TagsDone(w: World, kv: map<Key, nat>, a: Artifact) {
    IsTag(w, a.metadata) || TaggedForAll(w, kv, a.rid, a.content.tags)
  }

  predicate AllTagged(w: World, db: Database) {
    forall i :: 0 <= i < |db.artifacts| ==> TagsDone(w, db.kv, db.artifacts[i])
  }

  /** Every artifact except the one being captured has its edges. */
  predicate OthersTagged(w: World, db: Database, rid: nat) {
    forall i :: 0 <= i < |db.artifacts| ==> db.artifacts[i].rid == rid || TagsDone(w, db.kv, db.artifacts[i])
  }

  lemma TaggedForGrows(w: World, a: map<Key, nat>, b: map<Key, nat>, rid: nat, tag: string)
    requires Extends(a, b) && TaggedFor(w, a, rid, tag)
    ensures TaggedFor(w, b, rid, tag)
  {
    hide TagHash;
  }

  lemma TagsDoneGrows(w: World, a: map<Key, nat>, b: map<Key, nat>, row: Artifact)
    requires Extends(a, b) && TagsDone(w, a, row)
    ensures TagsDone(w, b, row)
  {
    hide TaggedFor, Extends;
    if !IsTag(w, row.metadata) {
      forall k | 0 <= k < |row.content.tags| ensures TaggedFor(w, b, row.rid, row.content.tags[k]) {
        TaggedForGrows(w, a, b, row.rid, row.content.tags[k]);
      }
    }
  }

  lemma TaggedForAllGrows(w: World, a: map<Key, nat>, b: map<Key, nat>, rid: nat, tags: seq<string>)
    requires Extends(a, b) && TaggedForAll(w, a, rid, tags)
    ensures TaggedForAll(w, b, rid, tags)
  {
    hide TaggedFor, Extends;
    forall k | 0 <= k < |tags| ensures TaggedFor(w, b, rid, tags[k]) {
      TaggedForGrows(w, a, b, rid, tags[k]);
    }
  }

  /** A step that adds only tag artifacts keeps the edges of the others. */
  lemma OthersTaggedGrows(w: World, a: Database, b: Database, rid: nat)
    requires Grows(a, b) && OthersTagged(w, a, rid)
    requires forall i :: |a.artifacts| <= i < |b.artifacts| ==>
      b.artifacts[i].rid == rid || IsTag(w, b.artifacts[i].metadata)
    ensures OthersTagged(w, b, rid)
  {
    hide TaggedForAll, Extends;
    forall i | 0 <= i < |b.artifacts| ensures b.artifacts[i].rid == rid || TagsDone(w, b.kv, b.artifacts[i]) {
      if i < |a.artifacts| {
        assert b.artifacts[i] == a.artifacts[i];
        if a.artifacts[i].rid != rid { TagsDoneGrows(w, a.kv, b.kv, a.artifacts[i]); }
      }
    }
  }

  lemma LinkTags(w: World, db: Database, from: nat, to: nat, kind: string, rid: nat)
    requires Inv(w, db) && Holds(db.artifacts, from) && Holds(db.artifacts, to) && OthersTagged(w, db, rid)
    ensures OthersTagged(w, Linked(db, from, to, kind), rid)
  {
    hide OthersTagged, Linked, Inv, Holds;
    LinkKeeps(w, db, from, to, kind);
    OthersTaggedGrows(w, db, Linked(db, from, to, kind), rid);
  }

  lemma EnsureTags(w: World, db: Database, content: Content, metadata: Metadata, rid: nat)
    requires Inv(w, db) && OthersTagged(w, db, rid) && IsTag(w, metadata)
    ensures OthersTagged(w, Ensured(w, db, content, metadata), rid)
  {
    hide OthersTagged, Inv, ByHash;
    EnsureKeeps(w, db, content, metadata);
    OthersTaggedGrows(w, db, Ensured(w, db, content, metadata), rid);
  }

  /** One round of the tag loop. */
  lemma TagStepKeeps(w: World, db: Database, rid: nat, tag: string)
    requires Inv(w, db) && Holds(db.artifacts, rid)
    ensures
      var db' := TagStep(w, db, rid, tag);
      && Inv(w, db') && Grows(db, db') && Holds(db'.artifacts, rid)
      && (OthersTagged(w, db, rid) ==> OthersTagged(w, db', rid)) && TaggedFor(w, db'.kv, rid, tag)
  {
    hide OthersTagged, Inv, Holds, Ensured, EnsuredValue, Linked;
    var content, metadata := TagContent(w, tag), TagInput(w, tag).metadata;
    var mid := Ensured(w, db, content, metadata);
    var to := EnsuredValue(w, db, content, metadata).rid;
    EnsureKeeps(w, db, content, metadata);
    HoldsGrows(db.artifacts, mid.artifacts, rid);
    LinkKeeps(w, mid, rid, to, w.tagged);
    if OthersTagged(w, db, rid) {
      EnsureTags(w, db, content, metadata, rid);
      LinkTags(w, mid, rid, to, w.tagged, rid);
    }
    GrowsTransitive(db, mid, Linked(mid, rid, to, w.tagged));
  }

  lemma {:induction false} TaggedKeeps(w: World, db: Database, rid: nat, tags: seq<string>)
    requires Inv(w, db) && Holds(db.artifacts, rid)
    ensures
      var db' := Tagged(w, db, rid, tags);
      && Inv(w, db') && Grows(db, db') && Holds(db'.artifacts, rid)
      && (OthersTagged(w, db, rid) ==> OthersTagged(w, db', rid)) && TaggedForAll(w, db'.kv, rid, tags)
  {
    hide OthersTagged, Inv, Holds, TaggedFor, TagStep, Extends;
    if tags != [] {
      var shorter, tag := tags[..|tags| - 1], tags[|tags| - 1];
      TaggedKeeps(w, db, rid, shorter);
      var mid := Tagged(w, db, rid, shorter);
      TagStepKeeps(w, mid, rid, tag);
      GrowsTransitive(db, mid, TagStep(w, mid, rid, tag));
      TaggedForAllGrows(w, mid.kv, TagStep(w, mid, rid, tag).kv, rid, shorter);
      assert tags == shorter + [tag];
    } else {
      SelfGrows(db);
    }
  }

  lemma SelfGrows(db: Database)
    ensures Grows(db, db)
  {
  }

  // ---------------------------------------------------------------------------
  // Auto-linking
  // ---------------------------------------------------------------------------

  /** No tagged edge leaves the artifact yet. */
  ghost predicate Untagged(w: World, kv: map<Key, nat>, rid: nat) {
    forall to :: EdgeKey(rid, to, w.tagged) !in kv
  }

  lemma ProposalStepKeeps(w: World, db: Database, existing: seq<Artifact>, rid: nat, p: Proposal)
    requires Inv(w, db)
    ensures
      var db' := ProposalStep(w, db, existing, rid, p);
      && Inv(w, db') && Grows(db, db') && db'.artifacts == db.artifacts
      && (OthersTagged(w, db, rid) ==> OthersTagged(w, db', rid))
  {
    hide OthersTagged, Inv, Holds, Linked, Find;
    if Acceptable(w, db, existing, rid, p) {
      var a, b := Find(db.artifacts, p.from).value, Find(db.artifacts, p.to).value;
      FindHolds(db.artifacts, p.from);
      FindHolds(db.artifacts, p.to);
      LinkKeeps(w, db, a.rid, b.rid, p.kind);
      if OthersTagged(w, db, rid) { LinkTags(w, db, a.rid, b.rid, p.kind, rid); }
    } else {
      SelfGrows(db);
    }
  }

  lemma ProposalStepUntagged(w: World, db: Database, existing: seq<Artifact>, rid: nat, p: Proposal)
    requires w.tagged !in w.autoLinkKinds && Untagged(w, db.kv, rid)
    ensures Untagged(w, ProposalStep(w, db, existing, rid, p).kv, rid)
  {
    hide Find, Holds, ByEdge;
  }

  lemma {:induction false} ProposedKeeps(w: World, db: Database, existing: seq<Artifact>, rid: nat, ps: seq<Proposal>)
    requires Inv(w, db)
    ensures
      var db' := Proposed(w, db, existing, rid, ps);
      && Inv(w, db') && Grows(db, db') && db'.artifacts == db.artifacts
      && (OthersTagged(w, db, rid) ==> OthersTagged(w, db', rid))
    ensures w.tagged !in w.autoLinkKinds && Untagged(w, db.kv, rid) ==>
      Untagged(w, Proposed(w, db, existing, rid, ps).kv, rid)
  {
    hide OthersTagged, Inv, ProposalStep, Untagged, Extends;
    if ps != [] {
      var shorter, p := ps[..|ps| - 1], ps[|ps| - 1];
      ProposedKeeps(w, db, existing, rid, shorter);
      var mid := Proposed(w, db, existing, rid, shorter);
      ProposalStepKeeps(w, mid, existing, rid, p);
      GrowsTransitive(db, mid, ProposalStep(w, mid, existing, rid, p));
      if w.tagged !in w.autoLinkKinds && Untagged(w, mid.kv, rid) {
        ProposalStepUntagged(w, mid, existing, rid, p);
      }
    } else {
      SelfGrows(db);
    }
  }

  lemma AutoLinkedKeeps(
    w: World, db: Database, existing: seq<Artifact>, rid: nat, metadata: Metadata, linker: AutoLinker)
    requires Inv(w, db)
    ensures
      var db' := AutoLinked(w, db, existing, rid, metadata, linker);
      && Inv(w, db') && Grows(db, db') && db'.artifacts == db.artifacts
      && (OthersTagged(w, db, rid) ==> OthersTagged(w, db', rid))
    ensures w.tagged !in w.autoLinkKinds && Untagged(w, db.kv, rid) ==>
      Untagged(w, AutoLinked(w, db, existing, rid, metadata, linker).kv, rid)
  {
    hide OthersTagged, Inv, Proposed, Untagged;
    SelfGrows(db);
    if Asked(linker, metadata, existing, rid) { ProposedKeeps(w, db, existing, rid, linker.proposals); }
  }

  // ---------------------------------------------------------------------------
  // Whole captures
  // ---------------------------------------------------------------------------

  /** With nothing dangling, a row id not yet handed out starts no edge. */
  lemma FreshUntagged(w: World, db: Database)
    requires RidsFresh(db) && IndexBacked(db) && NoDangling(db)
    ensures Untagged(w, db.kv, db.next)
  {
    forall to ensures EdgeKey(db.next, to, w.tagged) !in db.kv {
      if EdgeKey(db.next, to, w.tagged) in db.kv {
        assert false;
      }
    }
  }

  /** The database right after the insertion of a new artifact. */
  lemma InsertionHolds(w: World, db: Database, content: Content, metadata: Metadata)
    requires Inv(w, db) && ByHash(db, w.hash(content)).None?
    ensures
      var db' := Inserted(w, db, content, metadata);
      && Inv(w, db') && Grows(db, db') && Holds(db'.artifacts, db.next)
      && (AllTagged(w, db) ==> OthersTagged(w, db', db.next))
      && Untagged(w, db'.kv, db.next)
  {
    hide AllTagged, OthersTagged, Holds, ByHash;
    hide RidsFresh, RidsDistinct, HashIndexed, EdgeIndexed, IndexBacked, NoDangling;
    ByHashIff(w, db, w.hash(content));
    InsertKeeps(w, db, content, metadata);
    FreshUntagged(w, db);
    if AllTagged(w, db) {
      AllThenOthers(w, db, db.next);
      OthersTaggedGrows(w, db, Inserted(w, db, content, metadata), db.next);
    }
  }

  lemma AllThenOthers(w: World, db: Database, rid: nat)
    requires AllTagged(w, db)
    ensures OthersTagged(w, db, rid)
  {
    hide TagsDone;
  }

  /** The one way a capture leaves an artifact without its tag edges. */
  predicate LosesTags(w: World, db: Database, input: Input, linker: AutoLinker) {
    var kind := NormalizeKind(w, input.kind);
    && kind.Some?
    && ByHash(db, w.hash(ContentOf(w, kind.value, input))).None?
    && AutoLinkThrows(w, db.artifacts, db.next, input.metadata, linker)
    && w.tidy(input.tags) != []
  }

  ghost predicate CompletedWell(w: World, db: Database, a: Artifact, out: Outcome<Artifact>) {
    && Inv(w, out.db) && Grows(db, out.db)
    && HashKey(a.hash) in out.db.kv
    && (out.Returned? ==> out.value == a)
  }

  lemma CompletedKeeps(w: World, db: Database, a: Artifact, existing: seq<Artifact>, linker: AutoLinker)
    requires Inv(w, db) && Holds(db.artifacts, a.rid) && HashKey(a.hash) in db.kv
    ensures CompletedWell(w, db, a, Completed(w, db, a, existing, linker))
  {
    hide Inv, Holds, AutoLinked, Tagged, OthersTagged, TaggedForAll, Untagged, AutoLinkThrows;
    AutoLinkedKeeps(w, db, existing, a.rid, a.metadata, linker);
    var linked := AutoLinked(w, db, existing, a.rid, a.metadata, linker);
    TaggedKeeps(w, linked, a.rid, a.content.tags);
    GrowsTransitive(db, linked, Tagged(w, linked, a.rid, a.content.tags));
  }

  /** After the insertion, all edges are in place unless the auto-linker's error is passed on. */
  lemma CompletedTags(w: World, db: Database, n: nat, existing: seq<Artifact>, linker: AutoLinker)
    requires Inv(w, db) && n < |db.artifacts| && OthersTagged(w, db, db.artifacts[n].rid)
    requires Untagged(w, db.kv, db.artifacts[n].rid) && w.tagged !in w.autoLinkKinds
    ensures
      var a := db.artifacts[n];
      var out := Completed(w, db, a, existing, linker);
      AllTagged(w, out.db) <==> !(AutoLinkThrows(w, existing, a.rid, a.metadata, linker) && a.content.tags != [])
  {
    hide Inv, AutoLinked, Tagged, OthersTagged, Untagged, AllTagged, TaggedForAll;
    var a := db.artifacts[n];
    var linked := AutoLinked(w, db, existing, a.rid, a.metadata, linker);
    AutoLinkedKeeps(w, db, existing, a.rid, a.metadata, linker);
    assert Holds(linked.artifacts, a.rid);
    if AutoLinkThrows(w, existing, a.rid, a.metadata, linker) {
      if a.content.tags == [] {
        NoTags(w, linked.kv, a);
        FinishAfter(w, linked, n);
      } else {
        StillUntagged(w, linked, n);
      }
    } else if IsTag(w, a.metadata) {
      FinishAfter(w, linked, n);
    } else {
      TaggedKeeps(w, linked, a.rid, a.content.tags);
      FinishAfter(w, Tagged(w, linked, a.rid, a.content.tags), n);
    }
  }

  lemma NoTags(w: World, kv: map<Key, nat>, a: Artifact)
    requires a.content.tags == []
    ensures TagsDone(w, kv, a)
  {
  }

  lemma FinishAfter(w: World, db: Database, n: nat)
    requires Inv(w, db) && n < |db.artifacts|
    requires OthersTagged(w, db, db.artifacts[n].rid) && TagsDone(w, db.kv, db.artifacts[n])
    ensures AllTagged(w, db)
  {
  }

  lemma StillUntagged(w: World, db: Database, n: nat)
    requires n < |db.artifacts| && Untagged(w, db.kv, db.artifacts[n].rid)
    requires !IsTag(w, db.artifacts[n].metadata) && db.artifacts[n].content.tags != []
    ensures !AllTagged(w, db)
  {
    hide TagHash;
    var a := db.artifacts[n];
    assert !TaggedFor(w, db.kv, a.rid, a.content.tags[0]);
    assert !TagsDone(w, db.kv, a);
  }

  /** A capture keeps the whole invariant, whatever the auto-linker proposes and however it ends. */
  lemma CaptureKeepsInv(w: World, db: Database, input: Input, linker: AutoLinker)
    requires Inv(w, db)
    ensures Inv(w, Capture(w, db, input, linker).db) && Grows(db, Capture(w, db, input, linker).db)
  {
    hide Inv, Completed, ByHash, Inserted, AllTagged, OthersTagged, Untagged;
    SelfGrows(db);
    var kind := NormalizeKind(w, input.kind);
    if kind.Some? {
      var content := ContentOf(w, kind.value, input);
      if ByHash(db, w.hash(content)).None? {
        InsertionHolds(w, db, content, input.metadata);
        InsertedRow(w, db, content, input.metadata);
        var mid, a := Inserted(w, db, content, input.metadata), RowOf(w, content, input.metadata, db.next);
        CompletedKeeps(w, mid, a, db.artifacts, linker);
        GrowsTransitive(db, mid, Completed(w, mid, a, db.artifacts, linker).db);
      }
    }
  }

  lemma InsertedRow(w: World, db: Database, content: Content, metadata: Metadata)
    ensures
      var db' := Inserted(w, db, content, metadata);
      && |db'.artifacts| == |db.artifacts| + 1
      && db'.artifacts[|db.artifacts|] == RowOf(w, content, metadata, db.next)
      && HashKey(w.hash(content)) in db'.kv
  {
  }

  /** Every artifact keeps its tag edges exactly when no auto-linker error is passed on to the caller. */
  lemma CaptureKeepsTagsIff(w: World, db: Database, input: Input, linker: AutoLinker)
    requires Inv(w, db) && AllTagged(w, db) && w.tagged !in w.autoLinkKinds
    ensures AllTagged(w, Capture(w, db, input, linker).db) <==> !LosesTags(w, db, input, linker)
  {
    hide Inv, Completed, ByHash, Inserted, AllTagged, OthersTagged, Untagged, AutoLinkThrows;
    var kind := NormalizeKind(w, input.kind);
    if kind.Some? {
      var content := ContentOf(w, kind.value, input);
      if ByHash(db, w.hash(content)).None? {
        InsertionHolds(w, db, content, input.metadata);
        InsertedRow(w, db, content, input.metadata);
        CompletedTags(w, Inserted(w, db, content, input.metadata), |db.artifacts|, db.artifacts, linker);
      }
    }
  }

  lemma IndexedRid(w: World, db: Database, n: nat)
    requires HashIndexed(w, db) && n < |db.artifacts|
    ensures Lookup(db.kv, HashKey(db.artifacts[n].hash)) == Some(db.artifacts[n].rid)
  {
  }

  /** The row a hash names is the row that was inserted under it. */
  lemma ByHashIs(w: World, db: Database, n: nat)
    requires Inv(w, db) && n < |db.artifacts|
    ensures ByHash(db, db.artifacts[n].hash) == Some(db.artifacts[n])
  {
    hide RidsFresh, HashIndexed, EdgeIndexed, IndexBacked, NoDangling, ByHash;
    IndexedRid(w, db, n);
    ByHashIff(w, db, db.artifacts[n].hash);
    var found := ByHash(db, db.artifacts[n].hash).value;
    var j :| 0 <= j < |db.artifacts| && db.artifacts[j] == found;
    assert j == n;
  }

  /**
   Capturing the same content again finds the first artifact and changes nothing,
   even when the first capture ended in an auto-linker error: tag edges it did not
   reach are never made up for.
   */
  lemma RecaptureChangesNothing(w: World, db: Database, input: Input, first: AutoLinker, second: AutoLinker)
    requires Inv(w, db) && NormalizeKind(w, input.kind).Some?
    ensures
      var once := Capture(w, db, input, first);
      var twice := Capture(w, once.db, input, second);
      && twice.Returned? && twice.db == once.db
      && (once.Returned? ==> twice.value == once.value)
  {
    hide Inv, Completed, Inserted, AllTagged, OthersTagged, Untagged;
    var content := ContentOf(w, NormalizeKind(w, input.kind).value, input);
    if ByHash(db, w.hash(content)).None? {
      InsertionHolds(w, db, content, input.metadata);
      InsertedRow(w, db, content, input.metadata);
      var mid, a := Inserted(w, db, content, input.metadata), RowOf(w, content, input.metadata, db.next);
      CompletedKeeps(w, mid, a, db.artifacts, first);
      var out := Completed(w, mid, a, db.artifacts, first);
      assert out.db.artifacts[|db.artifacts|] == mid.artifacts[|db.artifacts|];
      ByHashIs(w, out.db, |db.artifacts|);
    }
  }

  /** A capture leaves the database as it is exactly when its kind is unknown or its content is already held. */
  lemma CaptureChangesNothingIff(w: World, db: Database, input: Input, linker: AutoLinker)
    requires Inv(w, db)
    ensures
      var kind := NormalizeKind(w, input.kind);
      Capture(w, db, input, linker).db == db
      <==> kind.None?
           || exists i :: 0 <= i < |db.artifacts| && db.artifacts[i].hash == w.hash(ContentOf(w, kind.value, input))
  {
    hide Inv, Completed, ByHash, Inserted, AllTagged, OthersTagged, Untagged;
    var kind := NormalizeKind(w, input.kind);
    if kind.Some? {
      var content := ContentOf(w, kind.value, input);
      HashHeldIff(w, db, w.hash(content));
      if ByHash(db, w.hash(content)).None? {
        InsertionHolds(w, db, content, input.metadata);
        InsertedRow(w, db, content, input.metadata);
        var mid, a := Inserted(w, db, content, input.metadata), RowOf(w, content, input.metadata, db.next);
        CompletedKeeps(w, mid, a, db.artifacts, linker);
        assert mid.artifacts <= Completed(w, mid, a, db.artifacts, linker).db.artifacts;
      }
    }
  }

  /** A hash is found exactly when some artifact has it. */
  lemma HashHeldIff(w: World, db: Database, hash: string)
    requires Inv(w, db)
    ensures ByHash(db, hash).Some? <==> exists i :: 0 <= i < |db.artifacts| && db.artifacts[i].hash == hash
  {
    hide RidsFresh, HashIndexed, EdgeIndexed, IndexBacked, NoDangling, ByHash;
    ByHashIff(w, db, hash);
    forall i | 0 <= i < |db.artifacts| && db.artifacts[i].hash == hash ensures ByHash(db, hash).Some? {
      ByHashIs(w, db, i);
    }
  }

  // ---------------------------------------------------------------------------
  // Runs
  // ---------------------------------------------------------------------------

  datatype Op = CaptureOp(input: Input, linker: AutoLinker) | LinkOp(from: Ref, to: Ref, kind: Option<string>)

  const EMPTY := Database([], [], map[], 0)

  function Apply(w: World, db: Database, op: Op): Database {
    match op
    case CaptureOp(input, linker) => Capture(w, db, input, linker).db
    case LinkOp(from, to, kind) => Link(w, db, from, to, kind).db
  }

  function Exec(w: World, ops: seq<Op>): Database {
    if ops == [] then EMPTY else Apply(w, Exec(w, ops[..|ops| - 1]), ops[|ops| - 1])
  }

  lemma LinkOpKeeps(w: World, db: Database, from: Ref, to: Ref, kind: Option<string>)
    requires Inv(w, db)
    ensures
      var db' := Link(w, db, from, to, kind).db;
      Inv(w, db') && Grows(db, db') && (AllTagged(w, db) ==> AllTagged(w, db'))
  {
    hide Inv, Linked, Holds, Find, AllTagged;
    SelfGrows(db);
    var a, b := Find(db.artifacts, from), Find(db.artifacts, to);
    if Link(w, db, from, to, kind).Returned? {
      FindHolds(db.artifacts, from);
      FindHolds(db.artifacts, to);
      var k := if kind.Some? then kind.value else w.defaultConnection;
      LinkKeeps(w, db, a.value.rid, b.value.rid, k);
      if AllTagged(w, db) { AllTaggedGrows(w, db, Linked(db, a.value.rid, b.value.rid, k)); }
    }
  }

  lemma AllTaggedGrows(w: World, a: Database, b: Database)
    requires Grows(a, b) && a.artifacts == b.artifacts && AllTagged(w, a)
    ensures AllTagged(w, b)
  {
    hide TaggedForAll, Extends;
    forall i | 0 <= i < |b.artifacts| ensures TagsDone(w, b.kv, b.artifacts[i]) {
      TagsDoneGrows(w, a.kv, b.kv, a.artifacts[i]);
    }
  }

  lemma {:induction false} ExecKeepsInv(w: World, ops: seq<Op>)
    ensures Inv(w, Exec(w, ops))
  {
    hide Inv, Capture, Link;
    if ops == [] {
      EmptyHolds(w);
    } else {
      var db := Exec(w, ops[..|ops| - 1]);
      ExecKeepsInv(w, ops[..|ops| - 1]);
      match ops[|ops| - 1] {
        case CaptureOp(input, linker) => CaptureKeepsInv(w, db, input, linker);
        case LinkOp(from, to, kind) => LinkOpKeeps(w, db, from, to, kind);
      }
    }
  }

  lemma EmptyHolds(w: World)
    ensures Inv(w, EMPTY) && AllTagged(w, EMPTY)
  {
  }

  /** With auto-linker errors ignored, no capture of any run loses its tag edges. */
  lemma {:induction false} ExecKeepsTags(w: World, ops: seq<Op>)
    requires w.tagged !in w.autoLinkKinds && !w.throwErrors
    ensures AllTagged(w, Exec(w, ops))
  {
    hide Inv, Capture, Link, AllTagged;
    if ops == [] {
      EmptyHolds(w);
    } else {
      var db := Exec(w, ops[..|ops| - 1]);
      ExecKeepsInv(w, ops[..|ops| - 1]);
      ExecKeepsTags(w, ops[..|ops| - 1]);
      match ops[|ops| - 1] {
        case CaptureOp(input, linker) => CaptureKeepsTagsIff(w, db, input, linker);
        case LinkOp(from, to, kind) => LinkOpKeeps(w, db, from, to, kind);
      }
    }
  }

  /** In every reachable store: one artifact per hash, one connection per (from, kind, to). */
  lemma OneRowPerKey(w: World, ops: seq<Op>)
    ensures
      var db := Exec(w, ops);
      && (forall i, j :: 0 <= i < j < |db.artifacts| ==> db.artifacts[i].hash != db.artifacts[j].hash)
      && (forall i, j :: 0 <= i < j < |db.connections| ==>
            var c, d := db.connections[i], db.connections[j];
            (c.from, c.kind, c.to) != (d.from, d.kind, d.to))
      && NoDangling(db)
  {
    hide Exec;
    ExecKeepsInv(w, ops);
    var db := Exec(w, ops);
    forall i, j | 0 <= i < j < |db.artifacts| ensures db.artifacts[i].hash != db.artifacts[j].hash {
      assert db.artifacts[i].rid != db.artifacts[j].rid;
    }
    forall i, j | 0 <= i < j < |db.connections|
      ensures
        var c, d := db.connections[i], db.connections[j];
        (c.from, c.kind, c.to) != (d.from, d.kind, d.to)
    {
      assert db.connections[i].rid != db.connections[j].rid;
    }
  }

  /** In every reachable store the index and the rows agree, entry for entry. */
  lemma IndexAgreesWithRows(w: World, ops: seq<Op>, hash: string, rid: nat)
    ensures
      var db := Exec(w, ops);
      Lookup(db.kv, HashKey(hash)) == Some(rid) <==>
      exists i :: 0 <= i < |db.artifacts| && db.artifacts[i].hash == hash && db.artifacts[i].rid == rid
  {
    hide Exec;
    ExecKeepsInv(w, ops);
    var db := Exec(w, ops);
    if HashKey(hash) in db.kv {
      assert Backed(db, HashKey(hash));
    }
  }

  lemma EdgesAgreeWithRows(w: World, ops: seq<Op>, from: nat, to: nat, kind: string, rid: nat)
    ensures
      var db := Exec(w, ops);
      Lookup(db.kv, EdgeKey(from, to, kind)) == Some(rid) <==>
      exists i :: 0 <= i < |db.connections| && db.connections[i] == Connection(rid, kind, from, to)
  {
    hide Exec;
    ExecKeepsInv(w, ops);
    var db := Exec(w, ops);
    if EdgeKey(from, to, kind) in db.kv {
      assert Backed(db, EdgeKey(from, to, kind));
    }
  }

  /** Every non-tag artifact of a reachable store has a stored edge to the artifact of each of its tags. */
  lemma TagEdgesAreStored(w: World, ops: seq<Op>, i: nat, k: nat)
    requires w.tagged !in w.autoLinkKinds && !w.throwErrors
    requires i < |Exec(w, ops).artifacts| && !IsTag(w, Exec(w, ops).artifacts[i].metadata)
    requires k < |Exec(w, ops).artifacts[i].content.tags|
    ensures
      var db := Exec(w, ops);
      exists j, t ::
        && 0 <= j < |db.connections| && 0 <= t < |db.artifacts|
        && db.artifacts[t].hash == TagHash(w, db.artifacts[i].content.tags[k])
        && db.connections[j].from == db.artifacts[i].rid
        && db.connections[j].to == db.artifacts[t].rid
        && db.connections[j].kind == w.tagged
  {
    hide Exec, TagHash;
    ExecKeepsInv(w, ops);
    ExecKeepsTags(w, ops);
    var db := Exec(w, ops);
    var a := db.artifacts[i];
    var tag := a.content.tags[k];
    assert TagsDone(w, db.kv, a) && TaggedFor(w, db.kv, a.rid, tag);
    var key := HashKey(TagHash(w, tag));
    assert Backed(db, key) && Backed(db, EdgeKey(a.rid, db.kv[key], w.tagged));
    var t :| 0 <= t < |db.artifacts| && db.artifacts[t].hash == TagHash(w, tag);
    var j :| 0 <= j < |db.connections| && db.connections[j].from == a.rid && db.connections[j].to == db.kv[key] &&
             db.connections[j].kind == w.tagged;
    assert db.artifacts[t].rid == db.kv[key];
  }

  // ---------------------------------------------------------------------------
  // The vocabulary, and an example of lost tag edges
  // ---------------------------------------------------------------------------

  /** What the store's own vocabulary provides. */
  predicate Sound(w: World) {
    && w.tagKind in w.artifactKinds && w.tagKind !in w.aliases
    && w.tagged in w.connectionKinds && w.tagged !in w.autoLinkKinds
    && w.autoLinkKinds <= w.connectionKinds
  }

  /** The words of the store's schema, over any hash, naming and tag clean-up. */
  function StoreWorld(
    hash: Content -> string, id: (string, string) -> string, tidy: seq<string> -> seq<string>, throwErrors: bool
  ): (w: World)
    ensures Sound(w) && w.throwErrors == throwErrors
  {
    World(
      {"pillar", "decision", "concept", "question", "playbook", "task", "event", "pattern", "hypothesis", "fact",
       "source", "bookmark", "note", "reference", "custom", "project", "idea", "meeting", "claim", "organization",
       "person"},
      map["contact" := "person"],
      "note",
      {"supports", "contradicts", "depends_on", "derived_from", "related_to", "part_of", "preceded_by",
       "followed_by", "authored", "tagged"},
      "related_to",
      {"supports", "contradicts", "related_to"},
      "tagged",
      "custom",
      "tag",
      ["tag"],
      (tag: string) => "Tag: " + tag,
      hash, id, tidy, throwErrors)
  }

  function ExampleInput(title: string, tags: seq<string>): Input {
    Input(title, "", None, tags, None, None, Metadata(false, None))
  }

  function ExampleContent(title: string, tags: seq<string>): Content {
    Content("note", title, "", tags, None, None)
  }

  /**
   In the schema's own vocabulary, over any hash that tells the two contents apart:
   a store that passes auto-linker errors on captures a tagged artifact whose tag
   has no edge.
   */
  lemma LostTagsExample(
    hash: Content -> string, id: (string, string) -> string, tidy: seq<string> -> seq<string>)
    requires tidy([]) == [] && tidy(["x"]) == ["x"]
    requires hash(ExampleContent("a", [])) != hash(ExampleContent("b", ["x"]))
    ensures
      var w := StoreWorld(hash, id, tidy, true);
      var db := Capture(w, EMPTY, ExampleInput("a", []), Absent).db;
      && db.artifacts
         == [Artifact(0, id("a", hash(ExampleContent("a", []))), ExampleContent("a", []), hash(ExampleContent("a", [])),
                      Metadata(false, None))]
      && AllTagged(w, db)
      && !AllTagged(w, Capture(w, db, ExampleInput("b", ["x"]), Answers([], true)).db)
  {
    var w := StoreWorld(hash, id, tidy, true);
    var a := ExampleInput("a", []);
    var db := Capture(w, EMPTY, a, Absent).db;
    assert db.artifacts[0].rid == 0;
    EmptyHolds(w);
    CaptureKeepsInv(w, EMPTY, a, Absent);
    CaptureKeepsTagsIff(w, EMPTY, a, Absent);
    CaptureKeepsTagsIff(w, db, ExampleInput("b", ["x"]), Answers([], true));
  }

  // ---------------------------------------------------------------------------
  // Nothing captured or linked is lost
  // ---------------------------------------------------------------------------

  predicate StoredUnder(db: Database, hash: string) {
    exists i :: 0 <= i < |db.artifacts| && db.artifacts[i].hash == hash
  }

  lemma CaptureStores(w: World, db: Database, input: Input, linker: AutoLinker)
    requires Inv(w, db) && NormalizeKind(w, input.kind).Some?
    ensures
      var content := ContentOf(w, NormalizeKind(w, input.kind).value, input);
      StoredUnder(Capture(w, db, input, linker).db, w.hash(content))
  {
    hide Inv, Completed, Inserted, AllTagged, OthersTagged, Untagged, ByHash;
    var content := ContentOf(w, NormalizeKind(w, input.kind).value, input);
    HashHeldIff(w, db, w.hash(content));
    if ByHash(db, w.hash(content)).None? {
      InsertionHolds(w, db, content, input.metadata);
      InsertedRow(w, db, content, input.metadata);
      var mid, a := Inserted(w, db, content, input.metadata), RowOf(w, content, input.metadata, db.next);
      CompletedKeeps(w, mid, a, db.artifacts, linker);
      assert Completed(w, mid, a, db.artifacts, linker).db.artifacts[|db.artifacts|] == a;
    }
  }

  lemma LinkStores(w: World, db: Database, from: Ref, to: Ref, kind: Option<string>)
    requires Inv(w, db) && Link(w, db, from, to, kind).Returned?
    ensures
      var c, db' := Link(w, db, from, to, kind).value, Link(w, db, from, to, kind).db;
      && c in db'.connections && c.kind == (if kind.Some? then kind.value else w.defaultConnection)
      && (exists a, b :: Find(db.artifacts, from) == Some(a) && Find(db.artifacts, to) == Some(b)
            && c.from == a.rid && c.to == b.rid)
  {
    hide Find, RidsFresh, HashIndexed, NoDangling, ByEdge, RidsDistinct, EdgeIndexed, IndexBacked;
    var a, b := Find(db.artifacts, from).value, Find(db.artifacts, to).value;
    var k := if kind.Some? then kind.value else w.defaultConnection;
    var linked := Linked(db, a.rid, b.rid, k);
    if ByEdge(db, a.rid, b.rid, k).None? {
      assert linked.connections[|db.connections|] == Connection(db.next, k, a.rid, b.rid);
    } else {
      FoundEdge(db, a.rid, b.rid, k);
    }
    assert Find(db.artifacts, from) == Some(a) && Find(db.artifacts, to) == Some(b);
  }

  lemma {:induction false} ExecGrows(w: World, ops: seq<Op>, n: nat)
    requires n <= |ops|
    ensures Grows(Exec(w, ops[..n]), Exec(w, ops))
    decreases |ops| - n
  {
    hide Inv, Capture, Link, Grows, Exec;
    if n == |ops| {
      assert ops[..n] == ops;
      SelfGrows(Exec(w, ops));
    } else {
      ExecGrows(w, ops, n + 1);
      OneOp(w, ops, n);
      var db := Exec(w, ops[..n]);
      ExecKeepsInv(w, ops[..n]);
      match ops[n] {
        case CaptureOp(input, linker) => CaptureKeepsInv(w, db, input, linker);
        case LinkOp(from, to, kind) => LinkOpKeeps(w, db, from, to, kind);
      }
      GrowsTransitive(db, Exec(w, ops[..n + 1]), Exec(w, ops));
    }
  }

  lemma OneOp(w: World, ops: seq<Op>, n: nat)
    requires n < |ops|
    ensures Exec(w, ops[..n + 1]) == Apply(w, Exec(w, ops[..n]), ops[n])
  {
    assert ops[..n + 1][..n] == ops[..n];
  }

  /** Over every run: whatever was captured under a kind of the schema is still stored at the end. */
  lemma CapturedIsStored(w: World, ops: seq<Op>, n: nat)
    requires n < |ops| && ops[n].CaptureOp? && NormalizeKind(w, ops[n].input.kind).Some?
    ensures StoredUnder(Exec(w, ops), w.hash(ContentOf(w, NormalizeKind(w, ops[n].input.kind).value, ops[n].input)))
  {
    hide Inv, Capture, Exec;
    ExecKeepsInv(w, ops[..n]);
    CaptureStores(w, Exec(w, ops[..n]), ops[n].input, ops[n].linker);
    OneOp(w, ops, n);
    ExecGrows(w, ops, n + 1);
    var before, after := Exec(w, ops[..n + 1]), Exec(w, ops);
    var hash := w.hash(ContentOf(w, NormalizeKind(w, ops[n].input.kind).value, ops[n].input));
    var i :| 0 <= i < |before.artifacts| && before.artifacts[i].hash == hash;
    assert after.artifacts[i] == before.artifacts[i];
  }

  /** And so is every connection between two rows that were there and of a kind of the schema. */
  lemma LinkedIsStored(w: World, ops: seq<Op>, n: nat)
    requires n < |ops| && ops[n].LinkOp?
    requires Link(w, Exec(w, ops[..n]), ops[n].from, ops[n].to, ops[n].kind).Returned?
    ensures Link(w, Exec(w, ops[..n]), ops[n].from, ops[n].to, ops[n].kind).value in Exec(w, ops).connections
  {
    hide Inv, Link, Exec;
    ExecKeepsInv(w, ops[..n]);
    LinkStores(w, Exec(w, ops[..n]), ops[n].from, ops[n].to, ops[n].kind);
    OneOp(w, ops, n);
    ExecGrows(w, ops, n + 1);
  }
}
