/**
 Whole runs of the death black box: processes that install the recorder,
 announce phases, say goodbye or are killed at any instant, and reapings in
 between.
 */
module DeathRun {
  import opened DeathBlackBox
  import opened Wrappers

  /** What buildProcessPresence reads from the host at anchor time. */
  datatype AnchorFacts = AnchorFacts(ppid: Pid, bootId: Option<string>, cgroup: Option<string>)

  /**
   One process life. The first seven fields are the recorder's; `clearing` is
   the instant between the append of the record and the removal of the anchor;
   `owed` says that the process died with its anchor standing and unrecorded.
   */
  datatype Proc = Proc(
    kind: Kind, id: string, pid: Pid, phase: string, written: Option<Record>, anchor: Option<Presence>, installed: bool,
    clearing: bool, alive: bool, owed: bool)
  {
    function File(naming: Naming): string {
      naming(kind, id, pid)
    }

    function PresenceNow(f: AnchorFacts): Presence {
      Presence(kind, id, pid, f.ppid, f.bootId, f.cgroup, phase)
    }
  }

  datatype World = World(procs: map<nat, Proc>, host: Host)

  datatype Action =
    | Install(k: nat, kind: Kind, id: string, pid: Pid, phase: string, facts: AnchorFacts)
    | Announce(k: nat, name: string, facts: AnchorFacts)
    | Append(k: nat, path: ExitPath)
    | ClearAnchor(k: nat)
    | Uninstall(k: nat)
    | Die(k: nat)
    | Reap(names: seq<string>, live: set<Pid>, attribute: Presence -> Verdict)
    | Compact(drops: Record -> bool)

  /**
   What a compaction leaves of the lane. Which records are too old or no longer fit is
   open here; a reaping compacts after its loop, an append before it when over the ceiling.
   */
  function Retained(lane: seq<Record>, drops: Record -> bool): seq<Record> {
    if lane == [] then []
    else
      var rest, r := Retained(lane[..|lane| - 1], drops), lane[|lane| - 1];
      if drops(r) then rest else rest + [r]
  }

  /** A verdict speaks for the anchor it was asked about. */
  ghost predicate Speaks(attribute: Presence -> Verdict) {
    forall p :: attribute(p).kind == p.kind && attribute(p).id == p.id && attribute(p).pid == p.pid
             && attribute(p).lastPhase == p.lastPhase
  }

  ghost predicate Enabled(w: World, a: Action) {
    match a
    case Install(k, _, _, _, _, _) => k !in w.procs
    case Announce(k, _, _) => k in w.procs && w.procs[k].alive && !w.procs[k].clearing
    case Append(k, _) => k in w.procs && w.procs[k].alive && !w.procs[k].clearing && w.procs[k].installed
    case ClearAnchor(k) => k in w.procs && w.procs[k].alive && w.procs[k].clearing
    case Uninstall(k) => k in w.procs && w.procs[k].alive && !w.procs[k].clearing
    case Die(k) => k in w.procs && w.procs[k].alive
    case Reap(names, live, attribute) =>
      && Lists(names, w.host.anchors) && Speaks(attribute)
      && forall k <- w.procs :: w.procs[k].alive ==> w.procs[k].pid in live
    case Compact(_) => true
  }

  /** The environment: no two process lives share a (pid, id) or an anchor file. */
  ghost predicate Fresh(w: World, a: Action, naming: Naming) {
    a.Install? ==>
      forall k <- w.procs ::
        && !(w.procs[k].pid == a.pid && w.procs[k].id == a.id)
        && w.procs[k].File(naming) != naming(a.kind, a.id, a.pid)
  }

  function WriteAnchor(h: Host, file: string, p: Presence): Host {
    h.(anchors := h.anchors[file := Some(p)])
  }

  function RemoveAnchor(h: Host, file: string): Host {
    h.(anchors := h.anchors - {file})
  }

  /** One action of the run. */
  function Apply(w: World, a: Action, naming: Naming): World
    requires Enabled(w, a)
  {
    match a
    case Install(k, kind, id, pid, phase, facts) =>
      var p := Presence(kind, id, pid, facts.ppid, facts.bootId, facts.cgroup, phase);
      World(w.procs[k := Proc(kind, id, pid, phase, None, Some(p), true, false, true, false)],
            WriteAnchor(w.host, naming(kind, id, pid), p))
    case Announce(k, name, facts) =>
      var q := w.procs[k].(phase := name);
      if q.written.Some? then World(w.procs[k := q], w.host)
      else
        var p := q.PresenceNow(facts);
        World(w.procs[k := q.(anchor := Some(p))], WriteAnchor(w.host, q.File(naming), p))
    case Append(k, path) =>
      var q := w.procs[k];
      if q.written.Some? then w
      else
        var r := Record(q.kind, q.id, q.pid, path, q.phase);
        World(w.procs[k := q.(written := Some(r), clearing := true)], w.host.(lane := w.host.lane + [r]))
    case ClearAnchor(k) =>
      var q := w.procs[k];
      World(w.procs[k := q.(clearing := false)],
            if q.anchor.Some? then RemoveAnchor(w.host, q.File(naming)) else w.host)
    case Uninstall(k) =>
      var q := w.procs[k];
      World(w.procs[k := q.(installed := false)],
            if q.anchor.Some? then RemoveAnchor(w.host, q.File(naming)) else w.host)
    case Die(k) =>
      var q := w.procs[k];
      w.(procs := w.procs[k := q.(alive := false, owed := q.written.None? && q.File(naming) in w.host.anchors)])
    case Reap(names, live, attribute) => w.(host := Reaped(w.host, names, live, attribute))
    case Compact(drops) => w.(host := w.host.(lane := Retained(w.host.lane, drops)))
  }

  // ---------------------------------------------------------------------------
  // The recorder refines the run's actions
  // ---------------------------------------------------------------------------

  /** installDeathRecorder: closure variables as fields, the files as a shared object. */
  class DeathRecorder {
    const host: HostFiles
    const kind: Kind
    const id: string
    const pid: Pid
    var phase: string
    var written: Option<Record>
    var anchor: Option<Presence>
    var installed: bool

    ghost function Self(): Proc
      reads this
    {
      Proc(kind, id, pid, phase, written, anchor, installed, false, true, false)
    }

    constructor (host: HostFiles, kind: Kind, id: string, pid: Pid, phase: string, facts: AnchorFacts)
      modifies host`anchors
      ensures this.host == host
      ensures Self() == Proc(kind, id, pid, phase, None, Some(Self().PresenceNow(facts)), true, false, true, false)
      ensures host.Value() == WriteAnchor(old(host.Value()), host.naming(kind, id, pid), Self().PresenceNow(facts))
    {
      this.host, this.kind, this.id, this.pid := host, kind, id, pid;
      this.phase, written, anchor, installed := phase, None, None, true;
      new;
      AnchorNow(facts);
    }

    method AnchorNow(facts: AnchorFacts)
      modifies this`anchor, host`anchors
      ensures Self() == old(Self()).(anchor := Some(old(Self()).PresenceNow(facts)))
      ensures host.Value() == WriteAnchor(old(host.Value()), host.naming(kind, id, pid), old(Self()).PresenceNow(facts))
    {
      var p := Presence(kind, id, pid, facts.ppid, facts.bootId, facts.cgroup, phase);
      anchor := Some(p);
      host.anchors := host.anchors[host.naming(kind, id, pid) := Some(p)];
    }

    /** Announce a phase; the anchor follows until the record lands. */
    method Phase(name: string, facts: AnchorFacts)
      modifies this`phase, this`anchor, host`anchors
      ensures written.Some? ==> Self() == old(Self()).(phase := name) && host.Value() == old(host.Value())
      ensures written.None? ==>
        var p := Presence(kind, id, pid, facts.ppid, facts.bootId, facts.cgroup, name);
        && Self() == old(Self()).(phase := name, anchor := Some(p))
        && host.Value() == WriteAnchor(old(host.Value()), host.naming(kind, id, pid), p)
    {
      phase := name;
      if written.None? {
        AnchorNow(facts);
      }
    }

    /** Every exit handler: append once, then remove the anchor. */
    method Goodbye(path: ExitPath)
      modifies this`written, host`lane, host`anchors
      ensures old(written).Some? ==> Self() == old(Self()) && host.Value() == old(host.Value())
      ensures old(written).None? ==>
        && Self() == old(Self()).(written := Some(Record(kind, id, pid, path, old(phase))))
        && host.lane == old(host.lane) + [Record(kind, id, pid, path, old(phase))]
        && host.anchors
           == (if anchor.Some? then old(host.anchors) - {host.naming(kind, id, pid)} else old(host.anchors))
        && host.verdicts == old(host.verdicts)
    {
      if written.Some? {
        return;
      }
      var r := Record(kind, id, pid, path, phase);
      host.lane := host.lane + [r];
      written := Some(r);
      if anchor.Some? {
        host.Clear(kind, id, pid);
      }
    }

    /** Detach the handlers and stop promising a record. */
    method Detach()
      modifies this`installed, host`anchors
      ensures Self() == old(Self()).(installed := false)
      ensures host.Value() ==
        if anchor.Some? then RemoveAnchor(old(host.Value()), host.naming(kind, id, pid)) else old(host.Value())
    {
      installed := false;
      if anchor.Some? {
        host.Clear(kind, id, pid);
      }
    }
  }

  /** A handler that is not killed half-way is the run's two actions, one after the other. */
  lemma GoodbyeIsAppendThenClear(w: World, k: nat, path: ExitPath, naming: Naming)
    requires k in w.procs && w.procs[k].alive && !w.procs[k].clearing && w.procs[k].installed
    requires w.procs[k].written.None? && w.procs[k].anchor.Some?
    ensures
      var q := w.procs[k];
      var r := Record(q.kind, q.id, q.pid, path, q.phase);
      var t := Apply(w, Append(k, path), naming);
      && Enabled(t, ClearAnchor(k))
      && Apply(t, ClearAnchor(k), naming)
         == World(w.procs[k := q.(written := Some(r))],
                  Host(w.host.lane + [r], w.host.anchors - {q.File(naming)}, w.host.verdicts))
  {
  }

  // ---------------------------------------------------------------------------
  // The invariant
  // ---------------------------------------------------------------------------

  function Count(verdicts: seq<Verdict>, pid: Pid, id: string): nat {
    if verdicts == [] then 0
    else
      var v := verdicts[|verdicts| - 1];
      Count(verdicts[..|verdicts| - 1], pid, id) + if v.pid == pid && v.id == id then 1 else 0
  }

  function RecordCount(lane: seq<Record>, pid: Pid, id: string): nat {
    if lane == [] then 0
    else
      var r := lane[|lane| - 1];
      RecordCount(lane[..|lane| - 1], pid, id) + if r.pid == pid && r.id == id then 1 else 0
  }

  ghost predicate Distinct(w: World, naming: Naming) {
    forall j, k :: j in w.procs && k in w.procs && j != k ==>
      && !(w.procs[j].pid == w.procs[k].pid && w.procs[j].id == w.procs[k].id)
      && w.procs[j].File(naming) != w.procs[k].File(naming)
  }

  /** The anchor in `f` is the one process `k` wrote last. */
  ghost predicate AnchorOf(w: World, f: string, k: nat, naming: Naming)
    requires f in w.host.anchors
  {
    && k in w.procs && w.procs[k].File(naming) == f && w.host.anchors[f].Some?
    && (var p := w.host.anchors[f].value;
        && p.kind == w.procs[k].kind && p.id == w.procs[k].id && p.pid == w.procs[k].pid
        && p.lastPhase == w.procs[k].phase)
  }

  /** What holds of one process in every reachable state. */
  ghost predicate ProcInv(h: Host, q: Proc, naming: Naming) {
    && RecordCount(h.lane, q.pid, q.id) <= (if q.written.Some? then 1 else 0)
    && (RecordCount(h.lane, q.pid, q.id) > 0 ==> q.written.value in h.lane)
    && (q.written.Some? ==> q.written.value.pid == q.pid && q.written.value.id == q.id)
    && (q.File(naming) in h.anchors && q.written.Some? ==> q.clearing)
    && (q.alive ==> !q.owed)
    && (q.anchor.None? ==> q.File(naming) !in h.anchors)
    && (q.clearing ==> q.written.Some?)
    && (!q.alive && q.written.None? && q.File(naming) in h.anchors ==> q.owed)
    && (q.owed ==> q.written.None?)
    && Count(h.verdicts, q.pid, q.id) <= 1
    && (q.alive || q.File(naming) in h.anchors ==> Count(h.verdicts, q.pid, q.id) == 0)
    && (q.written.None? ==>
          Count(h.verdicts, q.pid, q.id) == (if q.owed && q.File(naming) !in h.anchors then 1 else 0))
  }

  ghost predicate AnchorsInv(w: World, naming: Naming) {
    forall f <- w.host.anchors :: exists k :: AnchorOf(w, f, k, naming)
  }

  ghost predicate ProcsInv(w: World, naming: Naming) {
    forall k <- w.procs :: ProcInv(w.host, w.procs[k], naming)
  }

  /** Every record and every verdict is about some process of the run. */
  ghost predicate LanesInv(w: World) {
    && (forall i :: 0 <= i < |w.host.lane| ==> Owned(w, w.host.lane[i].pid, w.host.lane[i].id))
    && (forall i :: 0 <= i < |w.host.verdicts| ==> Owned(w, w.host.verdicts[i].pid, w.host.verdicts[i].id))
  }

  ghost predicate Inv(w: World, naming: Naming) {
    Distinct(w, naming) && AnchorsInv(w, naming) && ProcsInv(w, naming) && LanesInv(w)
  }

  ghost predicate Owned(w: World, pid: Pid, id: string) {
    exists k :: k in w.procs && w.procs[k].pid == pid && w.procs[k].id == id
  }

  // ---------------------------------------------------------------------------
  // Counting
  // ---------------------------------------------------------------------------

  lemma {:induction false} CountConcat(a: seq<Verdict>, b: seq<Verdict>, pid: Pid, id: string)
    ensures Count(a + b, pid, id) == Count(a, pid, id) + Count(b, pid, id)
  {
    if b == [] {
      assert a + b == a;
    } else {
      assert (a + b)[..|a + b| - 1] == a + b[..|b| - 1];
      CountConcat(a, b[..|b| - 1], pid, id);
    }
  }

  lemma {:induction false} CountNone(a: seq<Verdict>, pid: Pid, id: string)
    requires forall i :: 0 <= i < |a| ==> !(a[i].pid == pid && a[i].id == id)
    ensures Count(a, pid, id) == 0
  {
    if a != [] { CountNone(a[..|a| - 1], pid, id); }
  }

  lemma {:induction false} RecordCountNone(a: seq<Record>, pid: Pid, id: string)
    ensures HasRecord(a, pid, id) <==> RecordCount(a, pid, id) > 0
  {
    if a != [] {
      var init := a[..|a| - 1];
      RecordCountNone(init, pid, id);
      if HasRecord(init, pid, id) {
        var i :| 0 <= i < |init| && init[i].pid == pid && init[i].id == id;
        assert a[i] == init[i];
      }
      if HasRecord(a, pid, id) {
        var i :| 0 <= i < |a| && a[i].pid == pid && a[i].id == id;
        if i < |init| { assert init[i] == a[i]; }
      }
    }
  }

  /** The presences a reaping attributes, file by file. */
  function Lost(h: Host, names: seq<string>, live: set<Pid>): seq<Presence> {
    WithFate(Decoded(h.anchors, names), Unrecorded, live, h.lane)
  }

  predicate Attributed(h: Host, f: string, live: set<Pid>) {
    f in h.anchors && h.anchors[f].Some? && Judge(h.anchors[f].value, live, h.lane) == Unrecorded
  }

  lemma LostSnoc(h: Host, names: seq<string>, n: nat, live: set<Pid>)
    requires n < |names|
    ensures Lost(h, names[..n + 1], live) ==
      Lost(h, names[..n], live) + if Attributed(h, names[n], live) then [h.anchors[names[n]].value] else []
  {
    assert names[..n + 1][..n] == names[..n];
    var d, f := Decoded(h.anchors, names[..n]), names[n];
    if f in h.anchors && h.anchors[f].Some? {
      var p := h.anchors[f].value;
      assert (d + [p])[..|d|] == d;
    } else {
      assert d + [] == d;
    }
    assert Lost(h, names[..n], live) + [] == Lost(h, names[..n], live);
  }

  lemma VerdictsSnoc(ps: seq<Presence>, p: Presence, attribute: Presence -> Verdict)
    ensures Verdicts(ps + [p], attribute) == Verdicts(ps, attribute) + [attribute(p)]
  {
  }

  /** The verdict on the anchor in file `f` is about the process whose file it is. */
  lemma VerdictIsAbout(w: World, f: string, attribute: Presence -> Verdict, k: nat, naming: Naming)
    requires Inv(w, naming) && Speaks(attribute) && k in w.procs && f in w.host.anchors && w.host.anchors[f].Some?
    ensures
      var q, v := w.procs[k], attribute(w.host.anchors[f].value);
      Count([v], q.pid, q.id) == if f == q.File(naming) then 1 else 0
  {
    var q, p := w.procs[k], w.host.anchors[f].value;
    var j :| AnchorOf(w, f, j, naming);
    assert attribute(p).pid == p.pid && attribute(p).id == p.id;
  }

  lemma ListedOnce(names: seq<string>, anchors: map<string, Option<Presence>>, n: nat)
    requires Lists(names, anchors) && n < |names|
    ensures names[n] !in names[..n] && names[n] in anchors
    ensures forall f :: f in names[..n + 1] <==> f in names[..n] || f == names[n]
  {
    assert names[..n + 1] == names[..n] + [names[n]];
    assert names[n] in names;
  }

  /** Only the anchor in `file` can earn (pid, id) a verdict. */
  ghost predicate OnlyFrom(h: Host, attribute: Presence -> Verdict, file: string, pid: Pid, id: string) {
    forall f <- h.anchors :: h.anchors[f].Some? ==>
      Count([attribute(h.anchors[f].value)], pid, id) == if f == file then 1 else 0
  }

  /** A process gets a verdict from the files listed exactly if its own is among them, dead and unrecorded. */
  lemma {:induction false} VerdictsFor(
    h: Host, names: seq<string>, n: nat, live: set<Pid>, attribute: Presence -> Verdict, file: string, pid: Pid,
    id: string)
    requires Lists(names, h.anchors) && n <= |names| && OnlyFrom(h, attribute, file, pid, id)
    ensures Count(Verdicts(Lost(h, names[..n], live), attribute), pid, id)
         == if file in names[..n] && Attributed(h, file, live) then 1 else 0
  {
    if n > 0 {
      var f := names[n - 1];
      hide Count, Lost, Lists, Verdicts;
      VerdictsFor(h, names, n - 1, live, attribute, file, pid, id);
      LostSnoc(h, names, n - 1, live);
      ListedOnce(names, h.anchors, n - 1);
      var before := Lost(h, names[..n - 1], live);
      if Attributed(h, f, live) {
        var p := h.anchors[f].value;
        VerdictsSnoc(before, p, attribute);
        CountConcat(Verdicts(before, attribute), [attribute(p)], pid, id);
      } else {
        assert before + [] == before;
      }
    }
  }

  // ---------------------------------------------------------------------------
  // Every action keeps the invariant
  // ---------------------------------------------------------------------------

  /** What one process's own action may change on disk: its own file and records of its own. */
  ghost predicate Touches(h: Host, g: Host, file: string, pid: Pid, id: string) {
    && g.verdicts == h.verdicts
    && (forall f :: f != file ==> (f in g.anchors <==> f in h.anchors))
    && (forall f :: f != file && f in g.anchors ==> g.anchors[f] == h.anchors[f])
    && (g.lane == h.lane ||
        (|g.lane| == |h.lane| + 1 && g.lane == h.lane + [g.lane[|h.lane|]]
         && g.lane[|h.lane|].pid == pid && g.lane[|h.lane|].id == id))
  }

  /** `t` differs from `w` in process `k`, which keeps its identity, and in what it may touch. */
  ghost predicate ActsAlone(w: World, t: World, k: nat, naming: Naming) {
    && k in t.procs && t.procs.Keys == w.procs.Keys + {k}
    && (forall j <- w.procs :: j != k ==> t.procs[j] == w.procs[j])
    && (k in w.procs ==>
          w.procs[k].kind == t.procs[k].kind && w.procs[k].id == t.procs[k].id && w.procs[k].pid == t.procs[k].pid)
    && Touches(w.host, t.host, t.procs[k].File(naming), t.procs[k].pid, t.procs[k].id)
  }

  lemma AnchorsFrame(w: World, t: World, k: nat, naming: Naming)
    requires AnchorsInv(w, naming) && ActsAlone(w, t, k, naming)
    requires t.procs[k].File(naming) in t.host.anchors ==> AnchorOf(t, t.procs[k].File(naming), k, naming)
    ensures AnchorsInv(t, naming)
  {
    forall f <- t.host.anchors ensures exists j :: AnchorOf(t, f, j, naming) {
      if f == t.procs[k].File(naming) {
        assert AnchorOf(t, f, k, naming);
      } else {
        var j :| AnchorOf(w, f, j, naming);
        assert AnchorOf(t, f, j, naming);
      }
    }
  }

  lemma ProcsFrame(w: World, t: World, k: nat, naming: Naming)
    requires ProcsInv(w, naming) && Distinct(t, naming) && ActsAlone(w, t, k, naming)
    requires ProcInv(t.host, t.procs[k], naming)
    ensures ProcsInv(t, naming)
  {
  }

  lemma LanesFrame(w: World, t: World, k: nat, naming: Naming)
    requires LanesInv(w) && ActsAlone(w, t, k, naming)
    ensures LanesInv(t)
  {
    forall pid, id | Owned(w, pid, id) ensures Owned(t, pid, id) {
      var j :| j in w.procs && w.procs[j].pid == pid && w.procs[j].id == id;
      assert t.procs[j].pid == pid && t.procs[j].id == id;
    }
    assert Owned(t, t.procs[k].pid, t.procs[k].id);
  }

  /** One process acted on its own file and lane entry: the rest of the world is as before. */
  lemma OwnActionKeepsInv(w: World, t: World, k: nat, naming: Naming)
    requires Inv(w, naming) && Distinct(t, naming) && ActsAlone(w, t, k, naming)
    requires ProcInv(t.host, t.procs[k], naming)
    requires t.procs[k].File(naming) in t.host.anchors ==> AnchorOf(t, t.procs[k].File(naming), k, naming)
    ensures Inv(t, naming)
  {
    AnchorsFrame(w, t, k, naming);
    ProcsFrame(w, t, k, naming);
    LanesFrame(w, t, k, naming);
  }

  lemma InstallKeepsInv(w: World, a: Action, naming: Naming)
    requires Inv(w, naming) && Enabled(w, a) && a.Install? && Fresh(w, a, naming)
    ensures Inv(Apply(w, a, naming), naming)
  {
    hide Count, RecordCount, AnchorsInv, Reaped, Retained;
    var t := Apply(w, a, naming);
    forall i | 0 <= i < |w.host.verdicts| ensures !(w.host.verdicts[i].pid == a.pid && w.host.verdicts[i].id == a.id) {
      assert Owned(w, w.host.verdicts[i].pid, w.host.verdicts[i].id);
    }
    CountNone(w.host.verdicts, a.pid, a.id);
    forall i | 0 <= i < |w.host.lane| ensures !(w.host.lane[i].pid == a.pid && w.host.lane[i].id == a.id) {
      assert Owned(w, w.host.lane[i].pid, w.host.lane[i].id);
    }
    RecordCountNone(w.host.lane, a.pid, a.id);
    OwnActionKeepsInv(w, t, a.k, naming);
  }

  lemma DistinctFrame(w: World, t: World, k: nat, naming: Naming)
    requires Distinct(w, naming) && k in w.procs && ActsAlone(w, t, k, naming)
    ensures Distinct(t, naming)
  {
    forall i, j | i in t.procs && j in t.procs && i != j
      ensures
        && !(t.procs[i].pid == t.procs[j].pid && t.procs[i].id == t.procs[j].id)
        && t.procs[i].File(naming) != t.procs[j].File(naming)
    {
      assert i in w.procs && j in w.procs;
    }
  }

  /** The same for a process already in the run. */
  lemma StepKeepsInv(w: World, q: Proc, h: Host, k: nat, naming: Naming)
    requires Inv(w, naming) && k in w.procs
    requires q.kind == w.procs[k].kind && q.id == w.procs[k].id && q.pid == w.procs[k].pid
    requires Touches(w.host, h, q.File(naming), q.pid, q.id)
    requires ProcInv(h, q, naming)
    requires q.File(naming) in h.anchors ==> AnchorMatches(h, q, naming)
    ensures Inv(World(w.procs[k := q], h), naming)
  {
    var t := World(w.procs[k := q], h);
    assert ActsAlone(w, t, k, naming);
    DistinctFrame(w, t, k, naming);
    OwnActionKeepsInv(w, t, k, naming);
  }

  /** The anchor in the process's own file is the one it wrote last. */
  ghost predicate AnchorMatches(h: Host, q: Proc, naming: Naming)
    requires q.File(naming) in h.anchors
  {
    && h.anchors[q.File(naming)].Some?
    && (var p := h.anchors[q.File(naming)].value;
        p.kind == q.kind && p.id == q.id && p.pid == q.pid && p.lastPhase == q.phase)
  }

  /** The anchor of a process is the one it wrote. */
  lemma OwnAnchor(w: World, k: nat, naming: Naming)
    requires Inv(w, naming) && k in w.procs && w.procs[k].File(naming) in w.host.anchors
    ensures AnchorOf(w, w.procs[k].File(naming), k, naming)
  {
    var f := w.procs[k].File(naming);
    var j :| AnchorOf(w, f, j, naming);
  }

  lemma AnnounceKeepsInv(w: World, a: Action, naming: Naming)
    requires Inv(w, naming) && Enabled(w, a) && a.Announce?
    ensures Inv(Apply(w, a, naming), naming)
  {
    hide Count, RecordCount, Distinct, AnchorsInv, LanesInv, Reaped, Retained;
    var t := Apply(w, a, naming);
    assert ProcInv(w.host, w.procs[a.k], naming);
    if w.procs[a.k].File(naming) in w.host.anchors { OwnAnchor(w, a.k, naming); }
    StepKeepsInv(w, t.procs[a.k], t.host, a.k, naming);
    assert t == World(w.procs[a.k := t.procs[a.k]], t.host);
  }

  lemma AppendedProc(h: Host, q: Proc, r: Record, naming: Naming)
    requires ProcInv(h, q, naming) && q.alive && q.written.None? && r.pid == q.pid && r.id == q.id
    ensures ProcInv(h.(lane := h.lane + [r]), q.(written := Some(r), clearing := true), naming)
  {
  }

  lemma AppendKeepsInv(w: World, a: Action, naming: Naming)
    requires Inv(w, naming) && Enabled(w, a) && a.Append?
    ensures Inv(Apply(w, a, naming), naming)
  {
    var q := w.procs[a.k];
    assert ProcInv(w.host, q, naming);
    if q.written.None? {
      var r := Record(q.kind, q.id, q.pid, a.path, q.phase);
      AppendedProc(w.host, q, r, naming);
      if q.File(naming) in w.host.anchors { OwnAnchor(w, a.k, naming); }
      StepKeepsInv(w, q.(written := Some(r), clearing := true), w.host.(lane := w.host.lane + [r]), a.k, naming);
    }
  }

  lemma RemoveKeepsInv(w: World, a: Action, naming: Naming)
    requires Inv(w, naming) && Enabled(w, a) && (a.ClearAnchor? || a.Uninstall?)
    ensures Inv(Apply(w, a, naming), naming)
  {
    hide Count, RecordCount, Distinct, AnchorsInv, LanesInv, Reaped;
    var t := Apply(w, a, naming);
    assert ProcInv(w.host, w.procs[a.k], naming);
    StepKeepsInv(w, t.procs[a.k], t.host, a.k, naming);
  }

  lemma DieKeepsInv(w: World, a: Action, naming: Naming)
    requires Inv(w, naming) && Enabled(w, a) && a.Die?
    ensures Inv(Apply(w, a, naming), naming)
  {
    var t := Apply(w, a, naming);
    assert ProcInv(w.host, w.procs[a.k], naming);
    if w.procs[a.k].File(naming) in w.host.anchors { OwnAnchor(w, a.k, naming); }
    StepKeepsInv(w, t.procs[a.k], w.host, a.k, naming);
  }

  /** Whether a reaping gives the process a verdict: its anchor stands, its pid is gone, the lane has no record. */
  predicate ReapCount(h: Host, q: Proc, live: set<Pid>, naming: Naming) {
    q.File(naming) in h.anchors && q.pid !in live && RecordCount(h.lane, q.pid, q.id) == 0
  }

  /** What one reaping adds for one process. */
  lemma ReapCounts(w: World, a: Action, k: nat, naming: Naming)
    requires Inv(w, naming) && Enabled(w, a) && a.Reap? && k in w.procs
    ensures
      var h, g, q := w.host, Apply(w, a, naming).host, w.procs[k];
      && Count(g.verdicts, q.pid, q.id)
         == Count(h.verdicts, q.pid, q.id) + (if ReapCount(h, q, a.live, naming) then 1 else 0)
      && g.lane == h.lane
      && (q.File(naming) in g.anchors <==> q.File(naming) in h.anchors && q.pid in a.live)
  {
    hide ProcInv, Count, RecordCount, Distinct, LanesInv, Speaks;
    var h, g, q := w.host, Apply(w, a, naming).host, w.procs[k];
    var file := q.File(naming);
    forall f <- h.anchors | h.anchors[f].Some?
      ensures Count([a.attribute(h.anchors[f].value)], q.pid, q.id) == if f == file then 1 else 0
    {
      VerdictIsAbout(w, f, a.attribute, k, naming);
    }
    VerdictsFor(h, a.names, |a.names|, a.live, a.attribute, file, q.pid, q.id);
    assert a.names[..|a.names|] == a.names;
    CountConcat(h.verdicts, Verdicts(Lost(h, a.names, a.live), a.attribute), q.pid, q.id);
    RecordCountNone(h.lane, q.pid, q.id);
    if file in h.anchors { OwnAnchor(w, k, naming); }
  }

  /** What one reaping means for one process. */
  lemma ReapKeepsProc(w: World, a: Action, k: nat, naming: Naming)
    requires Inv(w, naming) && Enabled(w, a) && a.Reap? && k in w.procs
    ensures ProcInv(Apply(w, a, naming).host, w.procs[k], naming)
  {
    hide Count, RecordCount, Reaped, Distinct, AnchorsInv, LanesInv, Speaks;
    ReapCounts(w, a, k, naming);
    assert ProcInv(w.host, w.procs[k], naming);
  }

  lemma {:induction false} WithFateHolds(ps: seq<Presence>, fate: Fate, live: set<Pid>, lane: seq<Record>, i: nat)
    requires i < |WithFate(ps, fate, live, lane)|
    ensures WithFate(ps, fate, live, lane)[i] in ps
  {
    if ps != [] {
      var init := ps[..|ps| - 1];
      if i < |WithFate(init, fate, live, lane)| { WithFateHolds(init, fate, live, lane, i); }
    }
  }

  lemma ReapKeepsInv(w: World, a: Action, naming: Naming)
    requires Inv(w, naming) && Enabled(w, a) && a.Reap?
    ensures Inv(Apply(w, a, naming), naming)
  {
    hide ProcInv, Lost, Verdicts, Speaks, Lists;
    var t := Apply(w, a, naming);
    forall k <- t.procs ensures ProcInv(t.host, t.procs[k], naming) {
      ReapKeepsProc(w, a, k, naming);
    }
    forall f <- t.host.anchors ensures exists k :: AnchorOf(t, f, k, naming) {
      var k :| AnchorOf(w, f, k, naming);
      assert AnchorOf(t, f, k, naming);
    }
    forall i | 0 <= i < |t.host.verdicts| ensures Owned(t, t.host.verdicts[i].pid, t.host.verdicts[i].id) {
      ReapVerdictOwned(w, a, i, naming);
    }
    assert forall i :: 0 <= i < |t.host.lane| ==> Owned(w, t.host.lane[i].pid, t.host.lane[i].id);
  }

  /** Every presence a reaping attributes is some process's anchor. */
  lemma LostIsOwned(w: World, names: seq<string>, live: set<Pid>, i: nat, naming: Naming)
    requires AnchorsInv(w, naming) && i < |Lost(w.host, names, live)|
    ensures var p := Lost(w.host, names, live)[i]; Owned(w, p.pid, p.id)
  {
    var h := w.host;
    var p := Lost(h, names, live)[i];
    WithFateHolds(Decoded(h.anchors, names), Unrecorded, live, h.lane, i);
    DecodedHolds(h.anchors, names, p);
    var n :| 0 <= n < |names| && names[n] in h.anchors && h.anchors[names[n]] == Some(p);
    var k :| AnchorOf(w, names[n], k, naming);
    assert w.procs[k].pid == p.pid && w.procs[k].id == p.id;
  }

  lemma ReapVerdictOwned(w: World, a: Action, i: nat, naming: Naming)
    requires Inv(w, naming) && Enabled(w, a) && a.Reap? && i < |Apply(w, a, naming).host.verdicts|
    ensures var v := Apply(w, a, naming).host.verdicts[i]; Owned(w, v.pid, v.id)
  {
    hide Lost, Lists, Distinct, AnchorsInv, ProcsInv, Owned;
    var n := |w.host.verdicts|;
    if i >= n {
      VerdictAt(w, a, i, naming);
      LostIsOwned(w, a.names, a.live, i - n, naming);
      var p := Lost(w.host, a.names, a.live)[i - n];
      assert a.attribute(p).pid == p.pid && a.attribute(p).id == p.id;
    } else {
      assert Owned(w, w.host.verdicts[i].pid, w.host.verdicts[i].id);
    }
  }

  // ---------------------------------------------------------------------------
  // Compaction
  // ---------------------------------------------------------------------------

  lemma {:induction false} RetainedHolds(lane: seq<Record>, drops: Record -> bool, r: Record)
    ensures r in Retained(lane, drops) <==> r in lane && !drops(r)
  {
    if lane != [] {
      RetainedHolds(lane[..|lane| - 1], drops, r);
      assert lane == lane[..|lane| - 1] + [lane[|lane| - 1]];
    }
  }

  /** Of the one record of a life, a compaction leaves one or none. */
  lemma {:induction false} RetainedCount(lane: seq<Record>, drops: Record -> bool, r: Record)
    requires RecordCount(lane, r.pid, r.id) <= 1
    requires RecordCount(lane, r.pid, r.id) == 1 ==> r in lane
    ensures RecordCount(Retained(lane, drops), r.pid, r.id) == if drops(r) then 0 else RecordCount(lane, r.pid, r.id)
  {
    hide RecordCount;
    if lane == [] {
      assert Retained(lane, drops) == lane;
    } else {
      var init, last := lane[..|lane| - 1], lane[|lane| - 1];
      assert lane == init + [last];
      AppendCount(init, last, r.pid, r.id);
      AppendCount(Retained(init, drops), last, r.pid, r.id);
      InMeansCounted(init, r);
      RetainedCount(init, drops, r);
    }
  }

  lemma InMeansCounted(lane: seq<Record>, r: Record)
    ensures r in lane ==> RecordCount(lane, r.pid, r.id) > 0
  {
    hide RecordCount;
    RecordCountNone(lane, r.pid, r.id);
    if r in lane {
      var i :| 0 <= i < |lane| && lane[i] == r;
    }
  }

  lemma AppendCount(lane: seq<Record>, r: Record, pid: Pid, id: string)
    ensures RecordCount(lane + [r], pid, id) == RecordCount(lane, pid, id) + if r.pid == pid && r.id == id then 1 else 0
  {
    assert (lane + [r])[..|lane|] == lane;
  }

  lemma CompactKeepsProc(h: Host, q: Proc, drops: Record -> bool, naming: Naming)
    requires ProcInv(h, q, naming)
    ensures ProcInv(h.(lane := Retained(h.lane, drops)), q, naming)
    ensures RecordCount(Retained(h.lane, drops), q.pid, q.id)
         == if q.written.Some? && drops(q.written.value) then 0 else RecordCount(h.lane, q.pid, q.id)
  {
    hide RecordCount, Count, Retained;
    if q.written.Some? {
      RetainedCount(h.lane, drops, q.written.value);
      RetainedHolds(h.lane, drops, q.written.value);
    } else {
      RetainedNone(h.lane, drops, q.pid, q.id);
    }
  }

  lemma {:induction false} RetainedNone(lane: seq<Record>, drops: Record -> bool, pid: Pid, id: string)
    requires RecordCount(lane, pid, id) == 0
    ensures RecordCount(Retained(lane, drops), pid, id) == 0
  {
    if lane != [] {
      RetainedNone(lane[..|lane| - 1], drops, pid, id);
      var rest := Retained(lane[..|lane| - 1], drops);
      assert (rest + [lane[|lane| - 1]])[..|rest|] == rest;
    }
  }

  lemma CompactKeepsInv(w: World, a: Action, naming: Naming)
    requires Inv(w, naming) && a.Compact?
    ensures Inv(Apply(w, a, naming), naming)
  {
    hide Retained, ProcInv;
    var t := Apply(w, a, naming);
    forall k <- t.procs ensures ProcInv(t.host, t.procs[k], naming) {
      CompactKeepsProc(w.host, w.procs[k], a.drops, naming);
    }
    forall f <- t.host.anchors ensures exists k :: AnchorOf(t, f, k, naming) {
      var k :| AnchorOf(w, f, k, naming);
      assert AnchorOf(t, f, k, naming);
    }
    forall i | 0 <= i < |t.host.lane| ensures Owned(t, t.host.lane[i].pid, t.host.lane[i].id) {
      RetainedHolds(w.host.lane, a.drops, t.host.lane[i]);
      assert Owned(w, t.host.lane[i].pid, t.host.lane[i].id);
    }
    forall i | 0 <= i < |t.host.verdicts| ensures Owned(t, t.host.verdicts[i].pid, t.host.verdicts[i].id) {
      assert Owned(w, w.host.verdicts[i].pid, w.host.verdicts[i].id);
    }
  }

  /** Every action of every run keeps the invariant. */
  lemma ApplyKeepsInv(w: World, a: Action, naming: Naming)
    requires Inv(w, naming) && Enabled(w, a) && Fresh(w, a, naming)
    ensures Inv(Apply(w, a, naming), naming)
  {
    match a {
      case Install(_, _, _, _, _, _) => InstallKeepsInv(w, a, naming);
      case Announce(_, _, _) => AnnounceKeepsInv(w, a, naming);
      case Append(_, _) => AppendKeepsInv(w, a, naming);
      case ClearAnchor(_) => RemoveKeepsInv(w, a, naming);
      case Uninstall(_) => RemoveKeepsInv(w, a, naming);
      case Die(_) => DieKeepsInv(w, a, naming);
      case Reap(_, _, _) => ReapKeepsInv(w, a, naming);
      case Compact(_) => CompactKeepsInv(w, a, naming);
    }
  }

  // ---------------------------------------------------------------------------
  // Over every run
  // ---------------------------------------------------------------------------

  const Start := World(map[], Host([], map[], []))

  ghost predicate Possible(w: World, acts: seq<Action>, naming: Naming)
    decreases |acts|
  {
    acts == [] ||
    (Enabled(w, acts[0]) && Fresh(w, acts[0], naming) && Possible(Apply(w, acts[0], naming), acts[1..], naming))
  }

  ghost function Exec(w: World, acts: seq<Action>, naming: Naming): World
    requires Possible(w, acts, naming)
    decreases |acts|
  {
    if acts == [] then w else Exec(Apply(w, acts[0], naming), acts[1..], naming)
  }

  lemma StartHolds(naming: Naming)
    ensures Inv(Start, naming)
  {
  }

  lemma {:induction false} ExecKeepsInv(w: World, acts: seq<Action>, naming: Naming)
    requires Inv(w, naming) && Possible(w, acts, naming)
    ensures Inv(Exec(w, acts, naming), naming)
    decreases |acts|
  {
    if acts != [] {
      ApplyKeepsInv(w, acts[0], naming);
      ExecKeepsInv(Apply(w, acts[0], naming), acts[1..], naming);
    }
  }

  /** The compaction drops the record of process `k`. */
  predicate Drops(w: World, a: Action, k: nat) {
    a.Compact? && k in w.procs && w.procs[k].written.Some? && a.drops(w.procs[k].written.value)
  }

  /** Some compaction of the run drops the record of process `k`. */
  ghost predicate Dropped(w: World, acts: seq<Action>, k: nat, naming: Naming)
    requires Possible(w, acts, naming)
    decreases |acts|
  {
    acts != [] && (Drops(w, acts[0], k) || Dropped(Apply(w, acts[0], naming), acts[1..], k, naming))
  }

  /** Until its record is dropped, a life that wrote one has it in the lane. */
  ghost predicate Recorded(w: World, k: nat, dropped: bool) {
    k in w.procs ==>
      RecordCount(w.host.lane, w.procs[k].pid, w.procs[k].id) == if w.procs[k].written.Some? && !dropped then 1 else 0
  }

  lemma RecordedStep(w: World, a: Action, k: nat, dropped: bool, naming: Naming)
    requires Inv(w, naming) && Enabled(w, a) && Fresh(w, a, naming) && Recorded(w, k, dropped)
    requires dropped ==> k in w.procs && w.procs[k].written.Some?
    ensures Recorded(Apply(w, a, naming), k, dropped || Drops(w, a, k))
    ensures dropped || Drops(w, a, k) ==>
      var t := Apply(w, a, naming); k in t.procs && t.procs[k].written.Some?
  {
    hide RecordCount, Retained, Reaped, AnchorsInv, Count, ProcInv, LanesInv, Distinct;
    if a.Install? && a.k == k {
      ApplyKeepsInv(w, a, naming);
      NoneBeforeWritten(Apply(w, a, naming), k, naming);
    } else if k in w.procs {
      if a.Reap? {
        ReapKeepsLane(w.host, a.names, a.live, a.attribute);
      } else if a.Compact? {
        assert ProcInv(w.host, w.procs[k], naming);
        CompactKeepsProc(w.host, w.procs[k], a.drops, naming);
      } else if a.Append? {
        AppendRecords(w, a, k, dropped, naming);
      }
    }
  }

  lemma AppendRecords(w: World, a: Action, k: nat, dropped: bool, naming: Naming)
    requires Distinct(w, naming) && Enabled(w, a) && a.Append? && k in w.procs && Recorded(w, k, dropped)
    requires dropped ==> w.procs[k].written.Some?
    ensures Recorded(Apply(w, a, naming), k, dropped)
  {
    hide RecordCount, Retained, Reaped;
    var q := w.procs[a.k];
    if q.written.None? {
      AppendCount(w.host.lane, Record(q.kind, q.id, q.pid, a.path, q.phase), w.procs[k].pid, w.procs[k].id);
    }
  }

  lemma NoneBeforeWritten(w: World, k: nat, naming: Naming)
    requires ProcsInv(w, naming) && k in w.procs && w.procs[k].written.None?
    ensures RecordCount(w.host.lane, w.procs[k].pid, w.procs[k].id) == 0
  {
    hide RecordCount, Count;
    assert ProcInv(w.host, w.procs[k], naming);
  }

  lemma ReapKeepsLane(h: Host, names: seq<string>, live: set<Pid>, attribute: Presence -> Verdict)
    ensures Reaped(h, names, live, attribute).lane == h.lane
  {
  }

  lemma {:induction false} RecordedAlways(w: World, acts: seq<Action>, k: nat, dropped: bool, naming: Naming)
    requires Inv(w, naming) && Possible(w, acts, naming) && Recorded(w, k, dropped)
    requires dropped ==> k in w.procs && w.procs[k].written.Some?
    ensures Recorded(Exec(w, acts, naming), k, dropped || Dropped(w, acts, k, naming))
    decreases |acts|
  {
    hide Inv, Apply, Enabled, Fresh, Recorded, Drops;
    if acts != [] {
      ApplyKeepsInv(w, acts[0], naming);
      RecordedStep(w, acts[0], k, dropped, naming);
      RecordedAlways(Apply(w, acts[0], naming), acts[1..], k, dropped || Drops(w, acts[0], k), naming);
    }
  }

  /** Exactly one record per life that said goodbye and whose record no compaction dropped, none for the others. */
  lemma OneRecordPerLife(acts: seq<Action>, k: nat, naming: Naming)
    requires Possible(Start, acts, naming) && k in Exec(Start, acts, naming).procs
    ensures
      var w := Exec(Start, acts, naming);
      var q := w.procs[k];
      var held := q.written.Some? && !Dropped(Start, acts, k, naming);
      && RecordCount(w.host.lane, q.pid, q.id) == (if held then 1 else 0)
      && (held ==> q.written.value in w.host.lane)
  {
    hide Exec, Dropped;
    StartHolds(naming);
    ExecKeepsInv(Start, acts, naming);
    RecordedAlways(Start, acts, k, false, naming);
    assert ProcInv(Exec(Start, acts, naming).host, Exec(Start, acts, naming).procs[k], naming);
  }

  /** The phase process `k` announced last, `before` the actions or during them. */
  function LastPhase(before: Option<string>, acts: seq<Action>, k: nat): Option<string>
    decreases |acts|
  {
    if acts == [] then before else LastPhase(Announced(before, acts[0], k), acts[1..], k)
  }

  function Announced(before: Option<string>, a: Action, k: nat): Option<string> {
    match a
    case Install(j, _, _, _, phase, _) => if j == k then Some(phase) else before
    case Announce(j, name, _) => if j == k then Some(name) else before
    case _ => before
  }

  lemma AnnouncedIsPhase(w: World, a: Action, k: nat, before: Option<string>, naming: Naming)
    requires Enabled(w, a) && (k in w.procs ==> before == Some(w.procs[k].phase))
    ensures
      var t := Apply(w, a, naming);
      k in t.procs ==> Announced(before, a, k) == Some(t.procs[k].phase)
  {
    hide Reaped;
  }

  lemma {:induction false} PhaseIsLastAnnounced(
    w: World, acts: seq<Action>, k: nat, before: Option<string>, naming: Naming)
    requires Possible(w, acts, naming) && (k in w.procs ==> before == Some(w.procs[k].phase))
    ensures
      var t := Exec(w, acts, naming);
      k in t.procs ==> LastPhase(before, acts, k) == Some(t.procs[k].phase)
    decreases |acts|
  {
    hide Apply, Enabled, Announced, Fresh;
    if acts != [] {
      AnnouncedIsPhase(w, acts[0], k, before, naming);
      PhaseIsLastAnnounced(Apply(w, acts[0], naming), acts[1..], k, Announced(before, acts[0], k), naming);
    }
  }

  /** The one record of a life carries the phase the process announced last before it. */
  lemma RecordCarriesLastPhase(acts: seq<Action>, k: nat, path: ExitPath, naming: Naming)
    requires Possible(Start, acts, naming) && Enabled(Exec(Start, acts, naming), Append(k, path))
    requires Exec(Start, acts, naming).procs[k].written.None?
    ensures
      var w := Exec(Start, acts, naming);
      var t := Apply(w, Append(k, path), naming);
      var q, phase := w.procs[k], LastPhase(None, acts, k);
      && phase.Some?
      && t.procs[k].written == Some(Record(q.kind, q.id, q.pid, path, phase.value))
      && t.host.lane == w.host.lane + [Record(q.kind, q.id, q.pid, path, phase.value)]
  {
    hide Exec, LastPhase;
    PhaseIsLastAnnounced(Start, acts, k, None, naming);
  }

  /** Whether a process's last word on its anchor was to write it, as installing and announcing do, not to detach. */
  function Promised(before: bool, acts: seq<Action>, k: nat): bool
    decreases |acts|
  {
    if acts == [] then before else Promised(PromisedNext(before, acts[0], k), acts[1..], k)
  }

  function PromisedNext(before: bool, a: Action, k: nat): bool {
    match a
    case Install(j, _, _, _, _, _) => j == k || before
    case Announce(j, _, _) => j == k || before
    case Uninstall(j) => j != k && before
    case _ => before
  }

  /** Until it writes a record, a process has its anchor standing, or died owed a verdict, exactly when it promised. */
  ghost predicate KeepsPromise(w: World, k: nat, promised: bool, naming: Naming) {
    k in w.procs && w.procs[k].written.None? ==>
      && (w.procs[k].installed ==> promised)
      && (promised <==> if w.procs[k].alive then w.procs[k].File(naming) in w.host.anchors else w.procs[k].owed)
  }

  lemma ProcAt(w: World, k: nat, naming: Naming)
    requires ProcsInv(w, naming) && k in w.procs
    ensures w.procs[k].anchor.None? ==> w.procs[k].File(naming) !in w.host.anchors
    ensures w.procs[k].clearing ==> w.procs[k].written.Some?
  {
    assert ProcInv(w.host, w.procs[k], naming);
  }

  /** What other processes do leaves a process and its anchor as they are. */
  lemma OthersKeepPromise(w: World, a: Action, k: nat, before: bool, naming: Naming)
    requires Distinct(w, naming) && Enabled(w, a) && Fresh(w, a, naming) && KeepsPromise(w, k, before, naming)
    requires !a.Reap? && !a.Compact? && a.k != k
    ensures KeepsPromise(Apply(w, a, naming), k, before, naming)
  {
    hide Reaped;
    if k in w.procs && !a.Install? {
      assert w.procs[a.k].File(naming) != w.procs[k].File(naming);
    }
  }

  lemma PromiseStep(w: World, a: Action, k: nat, before: bool, naming: Naming)
    requires Inv(w, naming) && Enabled(w, a) && Fresh(w, a, naming) && KeepsPromise(w, k, before, naming)
    ensures KeepsPromise(Apply(w, a, naming), k, PromisedNext(before, a, k), naming)
  {
    hide ProcsInv, LanesInv, AnchorsInv, Distinct;
    if a.Reap? {
      if k in w.procs && w.procs[k].File(naming) in w.host.anchors { OwnAnchor(w, k, naming); }
    } else if a.Compact? {
    } else if a.k != k {
      OthersKeepPromise(w, a, k, before, naming);
    } else if k in w.procs {
      ProcAt(w, k, naming);
    }
  }

  lemma {:induction false} PromiseIsKept(w: World, acts: seq<Action>, k: nat, before: bool, naming: Naming)
    requires Inv(w, naming) && Possible(w, acts, naming) && KeepsPromise(w, k, before, naming)
    ensures KeepsPromise(Exec(w, acts, naming), k, Promised(before, acts, k), naming)
    decreases |acts|
  {
    hide Inv, Apply, Enabled, Fresh, PromisedNext, KeepsPromise;
    if acts != [] {
      ApplyKeepsInv(w, acts[0], naming);
      PromiseStep(w, acts[0], k, before, naming);
      PromiseIsKept(Apply(w, acts[0], naming), acts[1..], k, PromisedNext(before, acts[0], k), naming);
    }
  }

  /** A verdict is about a dead process and names its last phase. */
  ghost predicate About(v: Verdict, q: Proc) {
    v.pid == q.pid && v.id == q.id ==> !q.alive && v.lastPhase == q.phase && v.kind == q.kind
  }

  ghost predicate VerdictsSpeak(w: World) {
    forall i, k :: 0 <= i < |w.host.verdicts| && k in w.procs ==> About(w.host.verdicts[i], w.procs[k])
  }

  lemma ReapSpeaks(w: World, a: Action, i: nat, k: nat, naming: Naming)
    requires Inv(w, naming) && Enabled(w, a) && a.Reap? && k in w.procs && i < |Lost(w.host, a.names, a.live)|
    ensures About(a.attribute(Lost(w.host, a.names, a.live)[i]), w.procs[k])
  {
    var h, names, live := w.host, a.names, a.live;
    var p := Lost(h, names, live)[i];
    WithFateHolds(Decoded(h.anchors, names), Unrecorded, live, h.lane, i);
    WithFateJudged(Decoded(h.anchors, names), Unrecorded, live, h.lane, i);
    DecodedHolds(h.anchors, names, p);
    var n :| 0 <= n < |names| && names[n] in h.anchors && h.anchors[names[n]] == Some(p);
    var j :| AnchorOf(w, names[n], j, naming);
    assert a.attribute(p).pid == p.pid && a.attribute(p).id == p.id;
  }

  lemma {:induction false} WithFateJudged(ps: seq<Presence>, fate: Fate, live: set<Pid>, lane: seq<Record>, i: nat)
    requires i < |WithFate(ps, fate, live, lane)|
    ensures Judge(WithFate(ps, fate, live, lane)[i], live, lane) == fate
  {
    hide Judge;
    if ps != [] {
      var init := ps[..|ps| - 1];
      if i < |WithFate(init, fate, live, lane)| { WithFateJudged(init, fate, live, lane, i); }
    }
  }

  lemma SpeakStep(w: World, a: Action, naming: Naming)
    requires Inv(w, naming) && Enabled(w, a) && Fresh(w, a, naming) && VerdictsSpeak(w)
    ensures VerdictsSpeak(Apply(w, a, naming))
  {
    hide About, AnchorsInv, ProcsInv, Distinct;
    var t := Apply(w, a, naming);
    forall i, k | 0 <= i < |t.host.verdicts| && k in t.procs ensures About(t.host.verdicts[i], t.procs[k]) {
      if a.Reap? && i >= |w.host.verdicts| {
        ReapSpeaks(w, a, i - |w.host.verdicts|, k, naming);
        VerdictAt(w, a, i, naming);
      } else {
        SpeakKept(w, a, i, k, naming);
      }
    }
  }

  lemma VerdictAt(w: World, a: Action, i: nat, naming: Naming)
    requires Enabled(w, a) && a.Reap? && |w.host.verdicts| <= i < |Apply(w, a, naming).host.verdicts|
    ensures i - |w.host.verdicts| < |Lost(w.host, a.names, a.live)|
    ensures Apply(w, a, naming).host.verdicts[i] == a.attribute(Lost(w.host, a.names, a.live)[i - |w.host.verdicts|])
  {
  }

  lemma SpeakKept(w: World, a: Action, i: nat, k: nat, naming: Naming)
    requires LanesInv(w) && Enabled(w, a) && Fresh(w, a, naming) && VerdictsSpeak(w)
    requires i < |w.host.verdicts| && k in Apply(w, a, naming).procs
    ensures i < |Apply(w, a, naming).host.verdicts|
    ensures About(Apply(w, a, naming).host.verdicts[i], Apply(w, a, naming).procs[k])
  {
    assert Owned(w, w.host.verdicts[i].pid, w.host.verdicts[i].id);
    if k in w.procs { assert About(w.host.verdicts[i], w.procs[k]); }
  }

  lemma {:induction false} VerdictsSpeakAlways(w: World, acts: seq<Action>, naming: Naming)
    requires Inv(w, naming) && Possible(w, acts, naming) && VerdictsSpeak(w)
    ensures VerdictsSpeak(Exec(w, acts, naming))
    decreases |acts|
  {
    hide Inv, Apply, Enabled, Fresh, VerdictsSpeak;
    if acts != [] {
      ApplyKeepsInv(w, acts[0], naming);
      SpeakStep(w, acts[0], naming);
      VerdictsSpeakAlways(Apply(w, acts[0], naming), acts[1..], naming);
    }
  }

  /** Some compaction of the run drops the record of process `k` while its anchor stands. */
  ghost predicate Exposed(w: World, acts: seq<Action>, k: nat, naming: Naming)
    requires Possible(w, acts, naming)
    decreases |acts|
  {
    acts != [] && (Exposes(w, acts[0], k, naming) || Exposed(Apply(w, acts[0], naming), acts[1..], k, naming))
  }

  predicate Exposes(w: World, a: Action, k: nat, naming: Naming) {
    Drops(w, a, k) && w.procs[k].File(naming) in w.host.anchors
  }

  /**
   A life that wrote its record keeps it while its anchor stands, until it is exposed;
   exposed, it has none, and if it was killed before it cleared its anchor, either that
   anchor stands or a reaping took it for an unrecorded death.
   */
  ghost predicate LateInv(w: World, k: nat, exposed: bool, naming: Naming) {
    k in w.procs && w.procs[k].written.Some? ==>
      var q, h := w.procs[k], w.host;
      && (exposed ==> RecordCount(h.lane, q.pid, q.id) == 0)
      && (!exposed && q.File(naming) in h.anchors ==> RecordCount(h.lane, q.pid, q.id) == 1)
      && (!exposed || !q.clearing ==> Count(h.verdicts, q.pid, q.id) == 0)
      && (exposed && q.clearing && q.File(naming) !in h.anchors ==> Count(h.verdicts, q.pid, q.id) == 1)
  }

  lemma LateStep(w: World, a: Action, k: nat, exposed: bool, naming: Naming)
    requires Inv(w, naming) && Enabled(w, a) && Fresh(w, a, naming) && LateInv(w, k, exposed, naming)
    requires exposed ==> k in w.procs && w.procs[k].written.Some?
    ensures LateInv(Apply(w, a, naming), k, exposed || Exposes(w, a, k, naming), naming)
    ensures exposed || Exposes(w, a, k, naming) ==>
      var t := Apply(w, a, naming); k in t.procs && t.procs[k].written.Some?
  {
    hide RecordCount, Retained, Reaped, AnchorsInv, Count, LanesInv, ProcInv, Distinct;
    if k in w.procs {
      if a.Reap? {
        LateReap(w, a, k, exposed, naming);
      } else if a.Compact? {
        assert ProcInv(w.host, w.procs[k], naming);
        CompactKeepsProc(w.host, w.procs[k], a.drops, naming);
        LateCompact(w, a, k, exposed, naming);
      } else if a.k != k {
        LateOthers(w, a, k, exposed, naming);
      } else {
        LateOwn(w, a, k, exposed, naming);
      }
    }
  }

  lemma LateCompact(w: World, a: Action, k: nat, exposed: bool, naming: Naming)
    requires Inv(w, naming) && a.Compact? && k in w.procs && LateInv(w, k, exposed, naming)
    requires exposed ==> w.procs[k].written.Some?
    requires RecordCount(Retained(w.host.lane, a.drops), w.procs[k].pid, w.procs[k].id)
          == if w.procs[k].written.Some? && a.drops(w.procs[k].written.value) then 0
             else RecordCount(w.host.lane, w.procs[k].pid, w.procs[k].id)
    ensures LateInv(Apply(w, a, naming), k, exposed || Exposes(w, a, k, naming), naming)
  {
    hide RecordCount, Retained, Count, AnchorsInv, LanesInv, Distinct;
    assert ProcInv(w.host, w.procs[k], naming);
  }

  lemma LateReap(w: World, a: Action, k: nat, exposed: bool, naming: Naming)
    requires Inv(w, naming) && Enabled(w, a) && a.Reap? && k in w.procs && LateInv(w, k, exposed, naming)
    ensures LateInv(Apply(w, a, naming), k, exposed, naming)
  {
    hide RecordCount, Count, LanesInv, Distinct, ProcInv, Verdicts, Lost, AnchorsInv, Reaped;
    ReapCounts(w, a, k, naming);
    var q := w.procs[k];
    if q.File(naming) in w.host.anchors { OwnAnchor(w, k, naming); }
    assert ProcInv(w.host, q, naming);
    StandingHasNone(w.host, q, naming);
  }

  lemma LateOthers(w: World, a: Action, k: nat, exposed: bool, naming: Naming)
    requires Inv(w, naming) && Enabled(w, a) && Fresh(w, a, naming) && LateInv(w, k, exposed, naming)
    requires !a.Reap? && !a.Compact? && a.k != k && k in w.procs
    ensures LateInv(Apply(w, a, naming), k, exposed, naming)
  {
    hide RecordCount, Count, Reaped, Retained, AnchorsInv, LanesInv, ProcsInv;
    if !a.Install? {
      assert w.procs[a.k].File(naming) != w.procs[k].File(naming);
    }
    if a.Append? && w.procs[a.k].written.None? {
      var q := w.procs[a.k];
      AppendCount(w.host.lane, Record(q.kind, q.id, q.pid, a.path, q.phase), w.procs[k].pid, w.procs[k].id);
    }
  }

  lemma LateOwn(w: World, a: Action, k: nat, exposed: bool, naming: Naming)
    requires Inv(w, naming) && Enabled(w, a) && LateInv(w, k, exposed, naming)
    requires !a.Reap? && !a.Compact? && a.k == k && k in w.procs
    requires exposed ==> w.procs[k].written.Some?
    ensures LateInv(Apply(w, a, naming), k, exposed, naming)
    ensures exposed ==> Apply(w, a, naming).procs[k].written.Some?
  {
    hide RecordCount, Count, Reaped, Retained, AnchorsInv, LanesInv, Distinct;
    var q := w.procs[k];
    assert ProcInv(w.host, q, naming);
    if a.Append? && q.written.None? {
      AppendCount(w.host.lane, Record(q.kind, q.id, q.pid, a.path, q.phase), q.pid, q.id);
    }
  }

  lemma {:induction false} LateAlways(w: World, acts: seq<Action>, k: nat, exposed: bool, naming: Naming)
    requires Inv(w, naming) && Possible(w, acts, naming) && LateInv(w, k, exposed, naming)
    requires exposed ==> k in w.procs && w.procs[k].written.Some?
    ensures LateInv(Exec(w, acts, naming), k, exposed || Exposed(w, acts, k, naming), naming)
    decreases |acts|
  {
    hide Inv, Apply, Enabled, Fresh, LateInv, Exposes;
    if acts != [] {
      ApplyKeepsInv(w, acts[0], naming);
      LateStep(w, acts[0], k, exposed, naming);
      LateAlways(Apply(w, acts[0], naming), acts[1..], k, exposed || Exposes(w, acts[0], k, naming), naming);
    }
  }

  /**
   A death that a reaping owes a verdict: unrecorded, with the anchor promised; or
   recorded but killed before the anchor was cleared, with the record compacted away
   while the anchor stood.
   */
  ghost predicate Due(acts: seq<Action>, k: nat, naming: Naming)
    requires Possible(Start, acts, naming) && k in Exec(Start, acts, naming).procs
  {
    var q := Exec(Start, acts, naming).procs[k];
    && !q.alive
    && if q.written.None? then Promised(false, acts, k) else q.clearing && Exposed(Start, acts, k, naming)
  }

  /**
   After a reaping at the end of any run: a process whose death is due a verdict, and
   so every one that died unrecorded without detaching, has exactly one unless its pid
   is in use again; no other process has one; a verdict names the phase announced last;
   the anchors left are exactly those whose pid is live.
   */
  lemma ReapingIsExact(acts: seq<Action>, a: Action, k: nat, naming: Naming)
    requires Possible(Start, acts, naming) && a.Reap? && Enabled(Exec(Start, acts, naming), a)
    requires k in Exec(Start, acts, naming).procs
    ensures
      var w := Exec(Start, acts, naming);
      var t := Apply(w, a, naming);
      var q := t.procs[k];
      && (!q.alive && q.written.None? && q.installed ==> Due(acts, k, naming))
      && (q.written.Some? && !Dropped(Start, acts, k, naming) ==> !Due(acts, k, naming))
      && (Due(acts, k, naming) && q.pid !in a.live ==> Count(t.host.verdicts, q.pid, q.id) == 1)
      && (!Due(acts, k, naming) ==> Count(t.host.verdicts, q.pid, q.id) == 0)
      && Count(t.host.verdicts, q.pid, q.id) <= 1
      && (q.File(naming) in t.host.anchors <==> q.File(naming) in w.host.anchors && q.pid in a.live)
      && (forall i :: 0 <= i < |t.host.verdicts| && t.host.verdicts[i].pid == q.pid && t.host.verdicts[i].id == q.id ==>
            LastPhase(None, acts, k) == Some(t.host.verdicts[i].lastPhase))
  {
    hide Exec, Promised, LastPhase, Lost, Count, RecordCount, Exposed, Dropped, Speaks, Distinct, AnchorsInv, LanesInv;
    ExecKeepsInv(Start, acts, naming);
    var w := Exec(Start, acts, naming);
    StartHolds(naming);
    PromiseIsKept(Start, acts, k, false, naming);
    LateAlways(Start, acts, k, false, naming);
    if Exposed(Start, acts, k, naming) { ExposedIsDropped(Start, acts, k, naming); }
    LateReap(w, a, k, Exposed(Start, acts, k, naming), naming);
    ReapedProc(w, a, k, naming);
    VerdictPhases(acts, a, k, naming);
  }

  lemma {:induction false} ExposedIsDropped(w: World, acts: seq<Action>, k: nat, naming: Naming)
    requires Possible(w, acts, naming) && Exposed(w, acts, k, naming)
    ensures Dropped(w, acts, k, naming)
    decreases |acts|
  {
    hide Apply, Enabled, Fresh, Drops;
    if !Exposes(w, acts[0], k, naming) {
      ExposedIsDropped(Apply(w, acts[0], naming), acts[1..], k, naming);
    }
  }

  lemma VerdictPhases(acts: seq<Action>, a: Action, k: nat, naming: Naming)
    requires Possible(Start, acts, naming) && a.Reap? && Enabled(Exec(Start, acts, naming), a)
    requires k in Exec(Start, acts, naming).procs
    ensures
      var t := Apply(Exec(Start, acts, naming), a, naming);
      var q := t.procs[k];
      forall i :: 0 <= i < |t.host.verdicts| && t.host.verdicts[i].pid == q.pid && t.host.verdicts[i].id == q.id ==>
        LastPhase(None, acts, k) == Some(t.host.verdicts[i].lastPhase)
  {
    hide Exec, LastPhase, Inv, Reaped, Speaks;
    StartHolds(naming);
    ExecKeepsInv(Start, acts, naming);
    var w := Exec(Start, acts, naming);
    VerdictsSpeakAlways(Start, acts, naming);
    SpeakStep(w, a, naming);
    PhaseIsLastAnnounced(Start, acts, k, None, naming);
    var t := Apply(w, a, naming);
    forall i | 0 <= i < |t.host.verdicts| && t.host.verdicts[i].pid == t.procs[k].pid
        && t.host.verdicts[i].id == t.procs[k].id
      ensures LastPhase(None, acts, k) == Some(t.host.verdicts[i].lastPhase)
    {
      assert About(t.host.verdicts[i], t.procs[k]);
    }
  }

  lemma StandingHasNone(h: Host, q: Proc, naming: Naming)
    requires ProcInv(h, q, naming)
    ensures q.File(naming) in h.anchors ==> Count(h.verdicts, q.pid, q.id) == 0
    ensures q.alive ==> Count(h.verdicts, q.pid, q.id) == 0
    ensures q.written.Some? && q.File(naming) in h.anchors ==> q.clearing
  {
    hide Count, RecordCount;
  }

  lemma ReapedProc(w: World, a: Action, k: nat, naming: Naming)
    requires Inv(w, naming) && Enabled(w, a) && a.Reap? && k in w.procs
    ensures
      var t := Apply(w, a, naming);
      var q := t.procs[k];
      && k in t.procs && q == w.procs[k]
      && (q.alive ==> !q.owed && Count(t.host.verdicts, q.pid, q.id) == 0)
      && (q.written.None? ==>
            && (q.owed && q.pid !in a.live ==> Count(t.host.verdicts, q.pid, q.id) == 1)
            && (!q.owed ==> Count(t.host.verdicts, q.pid, q.id) == 0))
      && Count(t.host.verdicts, q.pid, q.id) <= 1
      && (q.File(naming) in t.host.anchors <==> q.File(naming) in w.host.anchors && q.pid in a.live)
  {
    hide Count, RecordCount;
    ReapKeepsInv(w, a, naming);
    var t := Apply(w, a, naming);
    assert ProcInv(t.host, t.procs[k], naming);
    if w.procs[k].File(naming) in w.host.anchors { OwnAnchor(w, k, naming); }
  }

  lemma {:induction false} AllAlive(ps: seq<Presence>, live: set<Pid>, lane: seq<Record>)
    requires forall i :: 0 <= i < |ps| ==> ps[i].pid in live
    ensures WithFate(ps, Unrecorded, live, lane) == []
  {
    if ps != [] { AllAlive(ps[..|ps| - 1], live, lane); }
  }

  /** Reaping again with the same live pids adds no verdict and clears nothing. */
  lemma ReapAgainChangesNothing(
    h: Host, names: seq<string>, again: seq<string>, live: set<Pid>, attribute: Presence -> Verdict,
    attribute': Presence -> Verdict)
    requires Lists(again, Reaped(h, names, live, attribute).anchors)
    ensures Reaped(Reaped(h, names, live, attribute), again, live, attribute') == Reaped(h, names, live, attribute)
  {
    var g := Reaped(h, names, live, attribute);
    var ps := Decoded(g.anchors, again);
    forall i | 0 <= i < |ps| ensures ps[i].pid in live {
      DecodedHolds(g.anchors, again, ps[i]);
    }
    AllAlive(ps, live, g.lane);
    assert g.verdicts + Verdicts([], attribute') == g.verdicts;
    assert (map f | f in g.anchors && Kept(g.anchors[f], live) :: g.anchors[f]) == g.anchors;
  }

  /** A life that records its death and is killed before it clears its anchor; then the lane is compacted to nothing. */
  function ForgottenDeath(
    kind: Kind, id: string, pid: Pid, phase: string, facts: AnchorFacts, path: ExitPath, naming: Naming): World
  {
    var w1 := Apply(Start, Install(0, kind, id, pid, phase, facts), naming);
    var w2 := Apply(w1, Append(0, path), naming);
    var w3 := Apply(w2, Die(0), naming);
    Apply(w3, Compact(_ => true), naming)
  }

  /** The reaper takes it for an unrecorded death. */
  lemma ForgottenDeathGetsVerdict(
    kind: Kind, id: string, pid: Pid, phase: string, facts: AnchorFacts, path: ExitPath, attribute: Presence -> Verdict,
    naming: Naming)
    requires Speaks(attribute)
    ensures
      var w := ForgottenDeath(kind, id, pid, phase, facts, path, naming);
      var reap := Reap([naming(kind, id, pid)], {}, attribute);
      && Enabled(w, reap)
      && (var t := Apply(w, reap, naming);
          t.procs[0].written.Some? && Count(t.host.verdicts, pid, id) == 1)
  {
    hide Reaped, Count, ForgottenDeath;
    var f := naming(kind, id, pid);
    var w := ForgottenDeath(kind, id, pid, phase, facts, path, naming);
    var p := Presence(kind, id, pid, facts.ppid, facts.bootId, facts.cgroup, phase);
    ForgottenHost(kind, id, pid, phase, facts, path, naming);
    assert [f][0] == f;
    ReapOne(f, p, attribute);
    OneVerdict(attribute(p), pid, id);
  }

  lemma ForgottenHost(
    kind: Kind, id: string, pid: Pid, phase: string, facts: AnchorFacts, path: ExitPath, naming: Naming)
    ensures
      var w := ForgottenDeath(kind, id, pid, phase, facts, path, naming);
      var p := Presence(kind, id, pid, facts.ppid, facts.bootId, facts.cgroup, phase);
      && w.host == Host([], map[naming(kind, id, pid) := Some(p)], [])
      && w.procs.Keys == {0} && !w.procs[0].alive && w.procs[0].written.Some?
  {
    hide Reaped;
    var r := Record(kind, id, pid, path, phase);
    assert [r][..0] == [] && Retained([r], _ => true) == [];
    assert [] + [r] == [r];
  }

  lemma OneVerdict(v: Verdict, pid: Pid, id: string)
    requires v.pid == pid && v.id == id
    ensures Count([v], pid, id) == 1
  {
    assert [v][..0] == [];
  }

  // ---------------------------------------------------------------------------
  // Why a unique (pid, id) is not enough
  // ---------------------------------------------------------------------------

  /**
   Two lives with different ids that share a file: the second anchor replaces
   the first, and the first process, dead and unrecorded, never gets a verdict.
   */
  lemma SharedFileLosesVerdict(
    kind: Kind, id: string, id': string, pid: Pid, phase: string, facts: AnchorFacts, attribute: Presence -> Verdict,
    naming: Naming)
    requires id != id' && naming(kind, id, pid) == naming(kind, id', pid) && Speaks(attribute)
    ensures
      var w := TwoDeaths(kind, id, id', pid, phase, facts, naming);
      var reap := Reap([naming(kind, id, pid)], {}, attribute);
      && Enabled(w, reap)
      && (var t := Apply(w, reap, naming);
          && t.procs[0].owed && t.host.anchors == map[]
          && Count(t.host.verdicts, pid, id) == 0)
  {
    var f := naming(kind, id, pid);
    var w := TwoDeaths(kind, id, id', pid, phase, facts, naming);
    var p := Presence(kind, id', pid, facts.ppid, facts.bootId, facts.cgroup, phase);
    assert w.host == Host([], map[f := Some(p)], []);
    assert [f][0] == f;
    ReapOne(f, p, attribute);
  }

  /** Two lives under one pid and two ids: each installs the recorder and is killed. */
  function TwoDeaths(kind: Kind, id: string, id': string, pid: Pid, phase: string, facts: AnchorFacts, naming: Naming):
    World
  {
    var w1 := Apply(Start, Install(0, kind, id, pid, phase, facts), naming);
    var w2 := Apply(w1, Die(0), naming);
    var w3 := Apply(w2, Install(1, kind, id', pid, phase, facts), naming);
    Apply(w3, Die(1), naming)
  }

  lemma ReapOne(f: string, p: Presence, attribute: Presence -> Verdict)
    ensures Reaped(Host([], map[f := Some(p)], []), [f], {}, attribute) == Host([], map[], [attribute(p)])
  {
    var anchors: map<string, Option<Presence>> := map[f := Some(p)];
    var lane: seq<Record> := [];
    assert [f][..0] == [] && [p][..0] == [];
    assert Decoded(anchors, [f]) == [p];
    assert Judge(p, {}, lane) == Unrecorded;
    assert WithFate([p], Unrecorded, {}, lane) == [p];
    assert Verdicts([p], attribute) == [attribute(p)];
    assert [] + [attribute(p)] == [attribute(p)];
  }

  /** Such ids exist: everything outside the plain characters collapses to one underscore. */
  lemma SlashAndUnderscoreCollide(kind: Kind, pid: Pid)
    ensures FileName(kind, "a/b", pid) == FileName(kind, "a_b", pid)
  {
    assert Sanitized("a/b") == Sanitized("a_b");
  }
}
