/**
 The cross-process lock of the diagnostic log, as interleaved steps of any
 number of processes that may crash.

 Every file-system call and every liveness probe of the source is one atomic
 step. A step acts on the lock by PATH, as the source does: nothing in a step
 checks that the directory at the path is the caller's own. That it always is,
 is what the invariant proves.
 */
module LogLock {
  import opened Wrappers

  type Pid = p: int | 0 < p witness 1

  const MAX_ATTEMPTS: nat := 20
  const WINDOW_MS: nat := 30_000

  /** The owner file: missing, created but not yet written, or holding a pid. */
  datatype OwnerFile = Absent | Empty | Holds(pid: Pid)

  /** The lock directory. `id` stands for the pair (inode, birth time). */
  datatype Dir = Dir(id: nat, creator: Pid, born: nat, mtime: nat, owner: OwnerFile)

  /** The single-reaper marker file beside the lock. */
  datatype Marker = Marker(id: nat, holder: Pid, born: nat, mtime: nat, text: Option<Pid>)

  /** What one lstat keeps. */
  datatype Obs = Obs(id: nat, mtime: nat)

  /** The next step of one process; `n` is the attempt counter of the retry loop. */
  datatype Pc =
    | Idle
    | Mkdir(n: nat)
    | CreateOwner
    | WriteOwner
    | Critical
    | UnlinkOwner
    | RemoveDir
    | Stat(n: nat)
    | ReadOwner(n: nat, obs: Obs)
    | Probe(n: nat, obs: Obs, pid: Pid)
    | OpenMarker(n: nat, obs: Obs)
    | WriteMarker(n: nat, obs: Obs)
    | Recheck(n: nat, obs: Obs)
    | ReapOwner(n: nat, obs: Obs)
    | ReapDir(n: nat, obs: Obs)
    | CloseMarker(n: nat, failed: bool)
    | StatMarker(n: nat)
    | ReadMarker(n: nat, obs: Obs)
    | ProbeMarker(n: nat, obs: Obs, pid: Pid)
    | RestatMarker(n: nat, obs: Obs)
    | UnlinkMarker(n: nat)
    | Dead

  datatype State = State(now: nat, nextId: nat, dir: Option<Dir>, marker: Option<Marker>, pcs: map<Pid, Pc>)

  /** A process that never existed answers a signal like a dead one. */
  predicate Alive(s: State, p: Pid) {
    p in s.pcs && !s.pcs[p].Dead?
  }

  /** From the mkdir that created the directory to the rmdir that removes it. */
  predicate InLock(c: Pc) {
    c.CreateOwner? || c.WriteOwner? || c.Critical? || c.UnlinkOwner? || c.RemoveDir?
  }

  /** From the exclusive open of the marker to its unlink. */
  predicate InMarker(c: Pc) {
    c.WriteMarker? || c.Recheck? || c.ReapOwner? || c.ReapDir? || c.CloseMarker?
  }

  // ---------------------------------------------------------------------------
  // One step of one process
  // ---------------------------------------------------------------------------

  function Goto(s: State, p: Pid, c: Pc): State {
    s.(pcs := s.pcs[p := c])
  }

  /** The directory after its owner file was created, rewritten or removed. */
  function SetOwner(s: State, o: OwnerFile): State
    requires s.dir.Some?
  {
    var d := s.dir.value;
    var entryChanged := d.owner.Absent? != o.Absent?;
    s.(dir := Some(d.(owner := o, mtime := if entryChanged then s.now else d.mtime)))
  }

  /** lockLog's critical path: mkdir, owner file, and the returned unlock. */
  function HolderStep(s: State, p: Pid): State
    requires Alive(s, p)
    requires InLock(s.pcs[p])
  {
    match s.pcs[p]
    case CreateOwner => if s.dir.None? then Goto(s, p, Idle) else Goto(SetOwner(s, Empty), p, WriteOwner)
    case WriteOwner => if s.dir.None? then Goto(s, p, Critical) else Goto(SetOwner(s, Holds(p)), p, Critical)
    case Critical => Goto(s, p, UnlinkOwner)
    case UnlinkOwner =>
      if s.dir.None? || s.dir.value.owner.Absent? then Goto(s, p, Idle) else Goto(SetOwner(s, Absent), p, RemoveDir)
    case RemoveDir =>
      if s.dir.Some? && s.dir.value.owner.Absent? then Goto(s.(dir := None), p, Idle) else Goto(s, p, Idle)
  }

  /** The contended path: observe the directory and judge whether it is stale. */
  function ObserveStep(s: State, p: Pid): State
    requires Alive(s, p)
    requires var c := s.pcs[p]; c.Stat? || c.ReadOwner? || c.Probe?
  {
    match s.pcs[p]
    case Stat(n) =>
      if s.dir.None? then Goto(s, p, Mkdir(n + 1)) else Goto(s, p, ReadOwner(n, Obs(s.dir.value.id, s.dir.value.mtime)))
    case ReadOwner(n, obs) =>
      if s.dir.None? || s.dir.value.owner.Absent? then
        Goto(s, p, if s.now - obs.mtime > WINDOW_MS then OpenMarker(n, obs) else Mkdir(n + 1))
      else if s.dir.value.owner.Empty? then
        Goto(s, p, Mkdir(n + 1))
      else
        Goto(s, p, Probe(n, obs, s.dir.value.owner.pid))
    case Probe(n, obs, q) => Goto(s, p, if Alive(s, q) then Mkdir(n + 1) else OpenMarker(n, obs))
  }

  /** The reaper section, guarded by the exclusive marker. */
  function ReapStep(s: State, p: Pid): State
    requires Alive(s, p)
    requires s.pcs[p].OpenMarker? || InMarker(s.pcs[p])
  {
    match s.pcs[p]
    case OpenMarker(n, obs) =>
      if s.marker.Some? then Goto(s, p, StatMarker(n))
      else
        var mine := Marker(s.nextId, p, s.now, s.now, None);
        Goto(s.(marker := Some(mine), nextId := s.nextId + 1), p, WriteMarker(n, obs))
    case WriteMarker(n, obs) =>
      var m := if s.marker.Some? then Some(s.marker.value.(text := Some(p), mtime := s.now)) else None;
      Goto(s.(marker := m), p, Recheck(n, obs))
    case Recheck(n, obs) =>
      Goto(s, p, if s.dir.None? || s.dir.value.id != obs.id then CloseMarker(n, false) else ReapOwner(n, obs))
    case ReapOwner(n, obs) => Goto(if s.dir.Some? then SetOwner(s, Absent) else s, p, ReapDir(n, obs))
    case ReapDir(n, obs) =>
      if s.dir.Some? && s.dir.value.owner.Absent? then Goto(s.(dir := None), p, CloseMarker(n, false))
      else Goto(s, p, CloseMarker(n, true))
    case CloseMarker(n, failed) => Goto(s.(marker := None), p, if failed then Idle else Mkdir(n + 1))
  }

  /** reapDeadRecoveryMarker: recover a marker whose holder died. */
  function RecoverStep(s: State, p: Pid): State
    requires Alive(s, p)
    requires
      var c := s.pcs[p];
      c.StatMarker? || c.ReadMarker? || c.ProbeMarker? || c.RestatMarker? || c.UnlinkMarker?
  {
    match s.pcs[p]
    case StatMarker(n) =>
      if s.marker.None? then Goto(s, p, Mkdir(n + 1))
      else Goto(s, p, ReadMarker(n, Obs(s.marker.value.id, s.marker.value.mtime)))
    case ReadMarker(n, obs) =>
      if s.marker.None? then Goto(s, p, Mkdir(n + 1))
      else if s.marker.value.text.Some? then Goto(s, p, ProbeMarker(n, obs, s.marker.value.text.value))
      else Goto(s, p, if s.now - obs.mtime <= WINDOW_MS then Mkdir(n + 1) else RestatMarker(n, obs))
    case ProbeMarker(n, obs, q) => Goto(s, p, if Alive(s, q) then Mkdir(n + 1) else RestatMarker(n, obs))
    case RestatMarker(n, obs) =>
      Goto(s, p, if s.marker.Some? && s.marker.value.id == obs.id then UnlinkMarker(n) else Mkdir(n + 1))
    case UnlinkMarker(n) => Goto(s.(marker := None), p, Mkdir(n + 1))
  }

  /** The next step of process `p`, whatever it is. */
  function Run(s: State, p: Pid): State
    requires Alive(s, p)
  {
    match s.pcs[p]
    case Idle => Goto(s, p, Mkdir(0))
    case Mkdir(n) =>
      if n >= MAX_ATTEMPTS then Goto(s, p, Idle)
      else if s.dir.Some? then Goto(s, p, Stat(n))
      else Goto(s.(dir := Some(Dir(s.nextId, p, s.now, s.now, Absent)), nextId := s.nextId + 1), p, CreateOwner)
    case Stat(_) => ObserveStep(s, p)
    case ReadOwner(_, _) => ObserveStep(s, p)
    case Probe(_, _, _) => ObserveStep(s, p)
    case StatMarker(_) => RecoverStep(s, p)
    case ReadMarker(_, _) => RecoverStep(s, p)
    case ProbeMarker(_, _, _) => RecoverStep(s, p)
    case RestatMarker(_, _) => RecoverStep(s, p)
    case UnlinkMarker(_) => RecoverStep(s, p)
    case OpenMarker(_, _) => ReapStep(s, p)
    case WriteMarker(_, _) => ReapStep(s, p)
    case Recheck(_, _) => ReapStep(s, p)
    case ReapOwner(_, _) => ReapStep(s, p)
    case ReapDir(_, _) => ReapStep(s, p)
    case CloseMarker(_, _) => ReapStep(s, p)
    case CreateOwner => HolderStep(s, p)
    case WriteOwner => HolderStep(s, p)
    case Critical => HolderStep(s, p)
    case UnlinkOwner => HolderStep(s, p)
    case RemoveDir => HolderStep(s, p)
  }

  // ---------------------------------------------------------------------------
  // Schedules
  // ---------------------------------------------------------------------------

  /** What an adversarial scheduler may do next. */
  datatype Action = Step(p: Pid) | Crash(p: Pid) | Tick(ms: nat)

  /** A live holder or reaper has not overstayed the window at instant `now`. */
  predicate Timely(s: State, now: nat) {
    && (s.dir.Some? && Alive(s, s.dir.value.creator) ==> now - s.dir.value.born <= WINDOW_MS)
    && (s.marker.Some? && Alive(s, s.marker.value.holder) ==> now - s.marker.value.born <= WINDOW_MS)
  }

  /**
   The environment assumptions: a process crashes anywhere except inside the
   reaper-marker section, crashed pids do not come back, and time does not run
   past the window of a live holder or reaper.
   */
  predicate Enabled(s: State, a: Action) {
    match a
    case Step(p) => Alive(s, p)
    case Crash(p) => Alive(s, p) && !InMarker(s.pcs[p])
    case Tick(ms) => Timely(s, s.now + ms)
  }

  function Apply(s: State, a: Action): State
    requires Enabled(s, a)
  {
    match a
    case Step(p) => Run(s, p)
    case Crash(p) => Goto(s, p, Dead)
    case Tick(ms) => s.(now := s.now + ms)
  }

  predicate Possible(s: State, acts: seq<Action>)
    decreases |acts|
  {
    acts == [] || (Enabled(s, acts[0]) && Possible(Apply(s, acts[0]), acts[1..]))
  }

  function Exec(s: State, acts: seq<Action>): State
    requires Possible(s, acts)
    decreases |acts|
  {
    if acts == [] then s else Exec(Apply(s, acts[0]), acts[1..])
  }

  predicate Init(s: State) {
    && s.dir.None? && s.marker.None?
    && forall p <- s.pcs :: s.pcs[p].Idle?
  }

  // ---------------------------------------------------------------------------
  // The invariant
  // ---------------------------------------------------------------------------

  /** The lock directory and the process inside the lock name each other. */
  ghost predicate HolderInv(s: State) {
    && (forall p <- s.pcs :: InLock(s.pcs[p]) ==> s.dir.Some? && s.dir.value.creator == p)
    && (s.dir.Some? ==>
          var d := s.dir.value;
          && d.creator in s.pcs && d.id < s.nextId
          && d.born <= d.mtime <= s.now
          && (Alive(s, d.creator) ==> InLock(s.pcs[d.creator]) && OwnerMatches(s.pcs[d.creator], d.owner))
          && (d.owner.Holds? ==> d.owner.pid == d.creator))
  }

  /** How far the live creator is, read off its owner file. */
  ghost predicate OwnerMatches(c: Pc, o: OwnerFile) {
    && (c.CreateOwner? || c.RemoveDir? ==> o.Absent?)
    && (c.WriteOwner? ==> o.Empty?)
    && (c.Critical? || c.UnlinkOwner? ==> o.Holds?)
  }

  /** The pid has been written to the standing directory's owner file, or never will be. */
  ghost predicate Written(s: State)
    requires s.dir.Some?
  {
    var d := s.dir.value;
    !d.owner.Empty? && !(Alive(s, d.creator) && s.pcs[d.creator].CreateOwner?)
  }

  /** The marker and the one live process inside the reaper section name each other. */
  ghost predicate MarkerInv(s: State) {
    && (forall p <- s.pcs :: InMarker(s.pcs[p]) ==> s.marker.Some? && s.marker.value.holder == p)
    && (s.marker.Some? ==>
          var m := s.marker.value;
          && m.id < s.nextId && m.born <= m.mtime <= s.now
          && m.holder in s.pcs && InMarker(s.pcs[m.holder])
          && (m.text.Some? ==> m.text.value == m.holder))
  }

  /** `id` names a directory that was judged stale: if it still stands, its creator is dead. */
  ghost predicate Stale(s: State, id: nat) {
    && id < s.nextId
    && (s.dir.Some? && s.dir.value.id == id ==> !Alive(s, s.dir.value.creator) && !s.dir.value.owner.Empty?)
  }

  /** What each process has learned so far is still true, or is about something gone. */
  ghost predicate KnowledgeInv(s: State, c: Pc) {
    match c
    case ReadOwner(_, obs) =>
      obs.id < s.nextId && (s.dir.Some? && s.dir.value.id == obs.id ==> s.dir.value.born <= obs.mtime)
    case Probe(_, obs, q) =>
      && obs.id < s.nextId
      && (s.dir.Some? && s.dir.value.id == obs.id ==> s.dir.value.creator == q && Written(s))
    case OpenMarker(_, obs) => Stale(s, obs.id)
    case WriteMarker(_, obs) => Stale(s, obs.id)
    case Recheck(_, obs) => Stale(s, obs.id)
    case ReapOwner(_, obs) => Stale(s, obs.id) && s.dir.Some? && s.dir.value.id == obs.id
    case ReapDir(_, obs) => Stale(s, obs.id) && s.dir.Some? && s.dir.value.id == obs.id
    case ReadMarker(_, obs) =>
      obs.id < s.nextId && (s.marker.Some? && s.marker.value.id == obs.id ==> s.marker.value.born <= obs.mtime)
    case ProbeMarker(_, obs, q) =>
      obs.id < s.nextId && (s.marker.Some? && s.marker.value.id == obs.id ==> s.marker.value.holder == q)
    case RestatMarker(_, obs) =>
      obs.id < s.nextId && (s.marker.Some? ==> s.marker.value.id != obs.id)
    case UnlinkMarker(_) => false
    case _ => true
  }

  ghost predicate Inv(s: State) {
    && HolderInv(s) && MarkerInv(s)
    && Timely(s, s.now)
    && forall p <- s.pcs :: KnowledgeInv(s, s.pcs[p])
  }

  /** What no single action undoes: identities, births, deaths and written owner files. */
  ghost predicate Evolves(s: State, t: State) {
    && s.nextId <= t.nextId
    && (t.dir.Some? && t.dir.value.id < s.nextId ==>
          && s.dir.Some? && s.dir.value.id == t.dir.value.id
          && s.dir.value.creator == t.dir.value.creator && s.dir.value.born == t.dir.value.born
          && (Written(s) ==> Written(t))
          && (!Alive(s, s.dir.value.creator) ==> !Alive(t, t.dir.value.creator)))
    && (t.marker.Some? && t.marker.value.id < s.nextId ==>
          && s.marker.Some? && s.marker.value.id == t.marker.value.id
          && s.marker.value.holder == t.marker.value.holder && s.marker.value.born == t.marker.value.born)
  }

  /** Most steps rest on nothing observed earlier. */
  predicate KnowsNothing(c: Pc) {
    c.Idle? || c.Mkdir? || c.Stat? || c.StatMarker? || c.CloseMarker? || c.Dead? || InLock(c)
  }

  lemma NothingKnown(s: State, c: Pc)
    requires KnowsNothing(c)
    ensures KnowledgeInv(s, c)
  {
  }

  /** What a process knows survives another process's action. */
  lemma KnowledgeFrame(s: State, t: State, c: Pc)
    requires Evolves(s, t) && KnowledgeInv(s, c)
    requires c.ReapOwner? || c.ReapDir? ==> t.dir.Some? && t.dir.value.id == c.obs.id
    ensures KnowledgeInv(t, c)
  {
  }

  lemma ReapersMeet(s: State, c: Pc)
    requires KnowledgeInv(s, c)
    ensures c.ReapOwner? || c.ReapDir? ==> s.dir.Some? && s.dir.value.id == c.obs.id
  {
  }

  /** A step that only moves the process counter keeps the invariant if the new knowledge is true. */
  lemma MoveKeepsInv(s: State, p: Pid, c: Pc)
    requires Inv(s) && Alive(s, p) && !c.Dead?
    requires !InLock(s.pcs[p]) && !InLock(c)
    requires InMarker(s.pcs[p]) == InMarker(c)
    requires KnowledgeInv(s, c)
    ensures Inv(Goto(s, p, c))
  {
    hide KnowledgeInv;
    var t := Goto(s, p, c);
    assert forall q :: Alive(t, q) == Alive(s, q);
    forall q <- t.pcs ensures KnowledgeInv(t, t.pcs[q]) {
      assert KnowledgeInv(s, t.pcs[q]);
      ReapersMeet(s, t.pcs[q]);
      KnowledgeFrame(s, t, t.pcs[q]);
    }
  }

  lemma ObserveStepKeepsInv(s: State, p: Pid)
    requires Inv(s) && Alive(s, p)
    requires var c := s.pcs[p]; c.Stat? || c.ReadOwner? || c.Probe?
    ensures Inv(ObserveStep(s, p))
  {
    hide KnowledgeInv, HolderInv, MarkerInv, Timely;
    ObserveKnows(s, p);
    MoveKeepsInv(s, p, ObserveStep(s, p).pcs[p]);
  }

  /** What one look at the directory tells is true. */
  lemma ObserveKnows(s: State, p: Pid)
    requires Inv(s) && Alive(s, p)
    requires var c := s.pcs[p]; c.Stat? || c.ReadOwner? || c.Probe?
    ensures KnowledgeInv(s, ObserveStep(s, p).pcs[p])
  {
    assert KnowledgeInv(s, s.pcs[p]);
  }

  lemma RecoverStepKeepsInv(s: State, p: Pid)
    requires Inv(s) && Alive(s, p)
    requires
      var c := s.pcs[p];
      c.StatMarker? || c.ReadMarker? || c.ProbeMarker? || c.RestatMarker? || c.UnlinkMarker?
    ensures Inv(RecoverStep(s, p))
  {
    hide KnowledgeInv, HolderInv, MarkerInv, Timely;
    RecoverKnows(s, p);
    MoveKeepsInv(s, p, RecoverStep(s, p).pcs[p]);
  }

  /** So is what one look at the marker tells; no live reaper's marker is ever unlinked. */
  lemma RecoverKnows(s: State, p: Pid)
    requires Inv(s) && Alive(s, p)
    requires
      var c := s.pcs[p];
      c.StatMarker? || c.ReadMarker? || c.ProbeMarker? || c.RestatMarker? || c.UnlinkMarker?
    ensures !s.pcs[p].UnlinkMarker? && KnowledgeInv(s, RecoverStep(s, p).pcs[p])
  {
    assert KnowledgeInv(s, s.pcs[p]);
  }

  /** A step that changes a file keeps what the other processes know. */
  lemma OthersKeepKnowledge(s: State, t: State, p: Pid)
    requires Inv(s) && Evolves(s, t) && p in s.pcs && t.pcs.Keys == s.pcs.Keys
    requires forall q <- s.pcs :: q != p ==> t.pcs[q] == s.pcs[q]
    requires forall q <- s.pcs ::
               q != p && (s.pcs[q].ReapOwner? || s.pcs[q].ReapDir?) ==> t.dir.Some? && t.dir.value.id == s.pcs[q].obs.id
    ensures forall q <- t.pcs :: q != p ==> KnowledgeInv(t, t.pcs[q])
  {
    forall q <- t.pcs | q != p ensures KnowledgeInv(t, t.pcs[q]) {
      KnowledgeFrame(s, t, t.pcs[q]);
    }
  }

  /** While no directory stands, or a live process owns it, no reaper is removing one. */
  lemma NobodyReaps(s: State)
    requires Inv(s)
    requires s.dir.Some? ==> Alive(s, s.dir.value.creator)
    ensures forall q <- s.pcs :: !s.pcs[q].ReapOwner? && !s.pcs[q].ReapDir?
  {
    forall q <- s.pcs ensures !s.pcs[q].ReapOwner? && !s.pcs[q].ReapDir? {
      assert KnowledgeInv(s, s.pcs[q]);
    }
  }

  lemma AcquireKeepsInv(s: State, p: Pid)
    requires Inv(s) && Alive(s, p) && (s.pcs[p].CreateOwner? || s.pcs[p].WriteOwner?)
    ensures Inv(HolderStep(s, p))
  {
    hide KnowledgeInv;
    NobodyReaps(s);
    var t := HolderStep(s, p);
    NothingKnown(t, t.pcs[p]);
    assert HolderInv(t) && MarkerInv(t) && Evolves(s, t);
    OthersKeepKnowledge(s, t, p);
  }

  lemma ReleaseKeepsInv(s: State, p: Pid)
    requires Inv(s) && Alive(s, p) && (s.pcs[p].Critical? || s.pcs[p].UnlinkOwner? || s.pcs[p].RemoveDir?)
    ensures Inv(HolderStep(s, p))
  {
    hide KnowledgeInv;
    NobodyReaps(s);
    var t := HolderStep(s, p);
    NothingKnown(t, t.pcs[p]);
    assert HolderInv(t) && MarkerInv(t) && Evolves(s, t);
    OthersKeepKnowledge(s, t, p);
  }

  lemma MkdirKeepsInv(s: State, p: Pid)
    requires Inv(s) && Alive(s, p)
    requires s.pcs[p].Idle? || s.pcs[p].Mkdir?
    ensures Inv(Run(s, p))
  {
    hide KnowledgeInv, ObserveStep, RecoverStep, ReapStep, HolderStep;
    var t := Run(s, p);
    NothingKnown(t, t.pcs[p]);
    NothingKnown(s, t.pcs[p]);
    if InLock(t.pcs[p]) {
      NobodyReaps(s);
      assert HolderInv(t) && MarkerInv(t) && Evolves(s, t);
      OthersKeepKnowledge(s, t, p);
    } else {
      MoveKeepsInv(s, p, t.pcs[p]);
    }
  }

  lemma OpenMarkerKeepsInv(s: State, p: Pid)
    requires Inv(s) && Alive(s, p) && s.pcs[p].OpenMarker?
    ensures Inv(ReapStep(s, p))
  {
    var t := ReapStep(s, p);
    assert KnowledgeInv(s, s.pcs[p]);
    if s.marker.Some? {
      MoveKeepsInv(s, p, t.pcs[p]);
    } else {
      OthersKeepKnowledge(s, t, p);
    }
  }

  lemma WriteMarkerKeepsInv(s: State, p: Pid)
    requires Inv(s) && Alive(s, p) && s.pcs[p].WriteMarker?
    ensures Inv(ReapStep(s, p))
  {
    assert KnowledgeInv(s, s.pcs[p]);
    OthersKeepKnowledge(s, ReapStep(s, p), p);
  }

  lemma CloseMarkerKeepsInv(s: State, p: Pid)
    requires Inv(s) && Alive(s, p) && s.pcs[p].CloseMarker?
    ensures Inv(ReapStep(s, p))
  {
    OthersKeepKnowledge(s, ReapStep(s, p), p);
  }

  /** The reaper unlinks a dead creator's owner file. */
  lemma ReapOwnerKeepsInv(s: State, p: Pid)
    requires Inv(s) && Alive(s, p) && s.pcs[p].ReapOwner?
    ensures Inv(ReapStep(s, p))
  {
    assert KnowledgeInv(s, s.pcs[p]);
    OthersKeepKnowledge(s, ReapStep(s, p), p);
  }

  /** The marker's holder is the only reaper at work. */
  lemma OneReaper(s: State, p: Pid)
    requires MarkerInv(s) && p in s.pcs && InMarker(s.pcs[p])
    ensures forall q <- s.pcs :: q != p ==> !InMarker(s.pcs[q])
  {
  }

  /** The reaper removes a dead creator's directory. */
  lemma ReapDirKeepsInv(s: State, p: Pid)
    requires Inv(s) && Alive(s, p) && s.pcs[p].ReapDir?
    ensures Inv(ReapStep(s, p))
  {
    hide KnowledgeInv;
    ReaperKnows(s, p);
    OneReaper(s, p);
    var t := ReapStep(s, p);
    NothingKnown(t, t.pcs[p]);
    assert HolderInv(t) && MarkerInv(t) && Evolves(s, t);
    OthersKeepKnowledge(s, t, p);
  }

  lemma ReaperKnows(s: State, p: Pid)
    requires Inv(s) && Alive(s, p) && s.pcs[p].ReapDir?
    ensures s.dir.Some? && !Alive(s, s.dir.value.creator)
  {
    assert KnowledgeInv(s, s.pcs[p]);
  }

  lemma ReapStepKeepsInv(s: State, p: Pid)
    requires Inv(s) && Alive(s, p)
    requires s.pcs[p].OpenMarker? || InMarker(s.pcs[p])
    ensures Inv(ReapStep(s, p))
  {
    match s.pcs[p] {
      case OpenMarker(_, _) => OpenMarkerKeepsInv(s, p);
      case WriteMarker(_, _) => WriteMarkerKeepsInv(s, p);
      case Recheck(_, _) =>
        assert KnowledgeInv(s, s.pcs[p]);
        MoveKeepsInv(s, p, ReapStep(s, p).pcs[p]);
      case ReapOwner(_, _) => ReapOwnerKeepsInv(s, p);
      case ReapDir(_, _) => ReapDirKeepsInv(s, p);
      case CloseMarker(_, _) => CloseMarkerKeepsInv(s, p);
    }
  }

  lemma StepKeepsInv(s: State, p: Pid)
    requires Inv(s) && Alive(s, p)
    ensures Inv(Run(s, p))
  {
    var c := s.pcs[p];
    if c.Idle? || c.Mkdir? {
      MkdirKeepsInv(s, p);
    } else if InLock(c) {
      if c.CreateOwner? || c.WriteOwner? { AcquireKeepsInv(s, p); } else { ReleaseKeepsInv(s, p); }
    } else if c.Stat? || c.ReadOwner? || c.Probe? {
      ObserveStepKeepsInv(s, p);
    } else if c.OpenMarker? || InMarker(c) {
      ReapStepKeepsInv(s, p);
    } else {
      RecoverStepKeepsInv(s, p);
    }
  }

  /** A reaper at work has its directory standing. */
  lemma CrashLeavesReapers(s: State, p: Pid)
    requires Inv(s) && Enabled(s, Crash(p))
    ensures forall q <- s.pcs :: s.pcs[q].ReapOwner? || s.pcs[q].ReapDir? ==>
      s.dir.Some? && s.dir.value.id == s.pcs[q].obs.id
  {
    forall q <- s.pcs | s.pcs[q].ReapOwner? || s.pcs[q].ReapDir?
      ensures s.dir.Some? && s.dir.value.id == s.pcs[q].obs.id
    {
      assert KnowledgeInv(s, s.pcs[q]);
    }
  }

  /** A crash outside the reaper section keeps the invariant. */
  lemma CrashKeepsInv(s: State, p: Pid)
    requires Inv(s) && Enabled(s, Crash(p))
    ensures Inv(Apply(s, Crash(p)))
  {
    hide KnowledgeInv, Run;
    var t := Apply(s, Crash(p));
    NothingKnown(t, t.pcs[p]);
    assert HolderInv(t) && MarkerInv(t) && Evolves(s, t);
    CrashLeavesReapers(s, p);
    OthersKeepKnowledge(s, t, p);
  }

  /** The clock keeps the invariant. */
  lemma TickKeepsInv(s: State, ms: nat)
    requires Inv(s) && Enabled(s, Tick(ms))
    ensures Inv(Apply(s, Tick(ms)))
  {
    var t := Apply(s, Tick(ms));
    forall q <- t.pcs ensures KnowledgeInv(t, t.pcs[q]) {
      KnowledgeFrame(s, t, t.pcs[q]);
    }
  }

  /** Every action of the scheduler keeps the invariant. */
  lemma ApplyKeepsInv(s: State, a: Action)
    requires Inv(s) && Enabled(s, a)
    ensures Inv(Apply(s, a))
  {
    match a {
      case Step(p) => StepKeepsInv(s, p);
      case Crash(p) => CrashKeepsInv(s, p);
      case Tick(ms) => TickKeepsInv(s, ms);
    }
  }

  lemma {:induction false} ExecKeepsInv(s: State, acts: seq<Action>)
    requires Inv(s) && Possible(s, acts)
    ensures Inv(Exec(s, acts))
    decreases |acts|
  {
    if acts != [] {
      ApplyKeepsInv(s, acts[0]);
      ExecKeepsInv(Apply(s, acts[0]), acts[1..]);
    }
  }

  // ---------------------------------------------------------------------------
  // Safety over every schedule
  // ---------------------------------------------------------------------------

  /**
   Mutual exclusion: from a free lock, whatever the number of processes, the
   interleaving, the crashes and the clock, at most one process is between its
   mkdir and its rmdir, and that process is the creator of the directory.
   */
  lemma MutualExclusion(s: State, acts: seq<Action>, p: Pid, q: Pid)
    requires Init(s) && Possible(s, acts)
    requires var t := Exec(s, acts); p in t.pcs && q in t.pcs && InLock(t.pcs[p]) && InLock(t.pcs[q])
    ensures p == q
    ensures var t := Exec(s, acts); t.dir.Some? && t.dir.value.creator == p
  {
    ExecKeepsInv(s, acts);
  }

  /**
   A live writer's lock is not reclaimable: in every reachable state, an action
   that removes or replaces the directory of a live process, or changes its
   owner file, is that process's own step.
   */
  lemma LiveLockIsNeverReaped(s: State, acts: seq<Action>, a: Action)
    requires Init(s) && Possible(s, acts)
    requires var t := Exec(s, acts); Enabled(t, a) && t.dir.Some? && Alive(t, t.dir.value.creator)
    ensures
      var t := Exec(s, acts);
      var u := Apply(t, a);
      u.dir != t.dir ==> a == Step(t.dir.value.creator)
  {
    ExecKeepsInv(s, acts);
    var t := Exec(s, acts);
    NobodyReaps(t);
    if a.Step? { assert KnowledgeInv(t, t.pcs[a.p]); }
  }

  // ---------------------------------------------------------------------------
  // Which dead locks are reclaimed
  // ---------------------------------------------------------------------------

  predicate Owns(s: State, p: Pid) {
    p in s.pcs && InLock(s.pcs[p]) && s.dir.Some? && s.dir.value.creator == p
  }

  /** Some schedule lets `p` take the lock. */
  ghost predicate CanTake(s: State, p: Pid) {
    exists acts :: Possible(s, acts) && Owns(Exec(s, acts), p)
  }

  lemma TakeAfter(s: State, a: Action, p: Pid)
    requires Enabled(s, a) && CanTake(Apply(s, a), p)
    ensures CanTake(s, p)
  {
    var acts :| Possible(Apply(s, a), acts) && Owns(Exec(Apply(s, a), acts), p);
    var all := [a] + acts;
    assert all[1..] == acts;
    assert Possible(s, all) && Exec(s, all) == Exec(Apply(s, a), acts);
  }

  lemma TakeNow(s: State, p: Pid)
    requires Alive(s, p) && s.pcs[p].Mkdir? && s.pcs[p].n < MAX_ATTEMPTS && s.dir.None?
    ensures CanTake(s, p)
  {
    var t := Apply(s, Step(p));
    assert Possible(t, []) && Owns(Exec(t, []), p);
    TakeAfter(s, Step(p), p);
  }

  /** Seven steps take a lone reaper from a stale verdict to the lock. */
  lemma TakeFromVerdict(s: State, p: Pid)
    requires Alive(s, p) && s.pcs[p].OpenMarker? && s.pcs[p].n + 1 < MAX_ATTEMPTS
    requires s.marker.None? && s.dir.Some? && s.dir.value.id == s.pcs[p].obs.id
    ensures CanTake(s, p)
  {
    var a := Step(p);
    var s1 := Apply(s, a);
    var s2 := Apply(s1, a);
    var s3 := Apply(s2, a);
    var s4 := Apply(s3, a);
    var s5 := Apply(s4, a);
    var s6 := Apply(s5, a);
    TakeNow(s6, p);
    TakeAfter(s5, a, p);
    TakeAfter(s4, a, p);
    TakeAfter(s3, a, p);
    TakeAfter(s2, a, p);
    TakeAfter(s1, a, p);
    TakeAfter(s, a, p);
  }

  /** A lone process that finds a dead writer's readable lock takes it. */
  lemma TakeFromDead(s: State, p: Pid)
    requires Inv(s) && Alive(s, p) && s.pcs[p].Mkdir? && s.pcs[p].n + 1 < MAX_ATTEMPTS
    requires s.marker.None? && s.dir.Some? && !Alive(s, s.dir.value.creator) && !s.dir.value.owner.Empty?
    ensures CanTake(s, p)
  {
    hide ReapStep, RecoverStep, HolderStep, CanTake, MarkerInv, KnowledgeInv;
    var a := Step(p);
    var age := Tick(WINDOW_MS + 1);
    var s0 := Apply(s, age);
    var s1 := Apply(s0, a);
    var s2 := Apply(s1, a);
    var s3 := Apply(s2, a);
    if s3.pcs[p].Probe? {
      TakeFromVerdict(Apply(s3, a), p);
      TakeAfter(s3, a, p);
    } else {
      TakeFromVerdict(s3, p);
    }
    TakeAfter(s2, a, p);
    TakeAfter(s1, a, p);
    TakeAfter(s0, a, p);
    TakeAfter(s, age, p);
  }

  /**
   The one dead lock that no schedule frees: the writer created its owner file
   and crashed before writing the pid. An empty file reads as the number 0,
   which is neither a pid to probe nor an absent file to age.
   */
  lemma {:induction false} EmptyOwnerIsStranded(s: State, acts: seq<Action>)
    requires Inv(s) && Possible(s, acts)
    requires s.dir.Some? && !Alive(s, s.dir.value.creator) && s.dir.value.owner.Empty?
    ensures Exec(s, acts).dir == s.dir
    decreases |acts|
  {
    if acts != [] {
      var a := acts[0];
      var t := Apply(s, a);
      if a.Step? { assert KnowledgeInv(s, s.pcs[a.p]); }
      assert t.dir == s.dir;
      ApplyKeepsInv(s, a);
      EmptyOwnerIsStranded(t, acts[1..]);
    }
  }

  /**
   A dead writer's lock is reclaimable exactly when its owner file is not empty.
   */
  lemma DeadLockIsReclaimableIff(s: State, p: Pid)
    requires Inv(s) && Alive(s, p) && s.pcs[p].Mkdir? && s.pcs[p].n + 1 < MAX_ATTEMPTS
    requires s.marker.None? && s.dir.Some? && !Alive(s, s.dir.value.creator)
    ensures CanTake(s, p) <==> !s.dir.value.owner.Empty?
  {
    if s.dir.value.owner.Empty? {
      forall acts | Possible(s, acts) ensures !Owns(Exec(s, acts), p) {
        EmptyOwnerIsStranded(s, acts);
      }
    } else {
      TakeFromDead(s, p);
    }
  }

  // ---------------------------------------------------------------------------
  // Progress of a lone process under every schedule
  // ---------------------------------------------------------------------------

  /** Only `p` moves; time may pass and other processes may die at any instant. */
  predicate Lone(acts: seq<Action>, p: Pid) {
    forall i :: 0 <= i < |acts| ==> acts[i] == Step(p) || acts[i].Tick? || (acts[i].Crash? && acts[i].p != p)
  }

  function StepsBy(acts: seq<Action>, p: Pid): nat
    decreases |acts|
  {
    if acts == [] then 0 else (if acts[0] == Step(p) then 1 else 0) + StepsBy(acts[1..], p)
  }

  /** The owner file names a dead pid, or it is missing from a directory last changed `since` over a window ago. */
  predicate JudgedStale(s: State, since: nat) {
    s.dir.Some? &&
    match s.dir.value.owner
    case Absent => s.now - since > WINDOW_MS
    case Empty => false
    case Holds(q) => !Alive(s, q)
  }

  /** From the mkdir that meets the dead lock to the one that takes it; a missing owner file saves the probe. */
  function StepsNeeded(d: Dir): nat {
    if d.owner.Holds? then 11 else 10
  }

  /** `k` more steps of `p`, and nothing else, give it the lock. */
  predicate OnWay(s: State, p: Pid, k: nat) {
    Alive(s, p) &&
    if k == 0 then Owns(s, p)
    else
      match s.pcs[p]
      case Mkdir(n) =>
        if s.dir.None? then k == 1 && n < MAX_ATTEMPTS
        else
          && n + 1 < MAX_ATTEMPTS && s.marker.None? && JudgedStale(s, s.dir.value.mtime)
          && k == StepsNeeded(s.dir.value)
      case Stat(n) =>
        && n + 1 < MAX_ATTEMPTS && s.marker.None? && s.dir.Some? && JudgedStale(s, s.dir.value.mtime)
        && k + 1 == StepsNeeded(s.dir.value)
      case ReadOwner(n, obs) =>
        && n + 1 < MAX_ATTEMPTS && s.marker.None? && JudgedStale(s, obs.mtime) && s.dir.value.id == obs.id
        && k + 2 == StepsNeeded(s.dir.value)
      case Probe(n, obs, q) => n + 1 < MAX_ATTEMPTS && s.marker.None? && !Alive(s, q) && Meets(s, obs) && k == 8
      case OpenMarker(n, obs) => n + 1 < MAX_ATTEMPTS && s.marker.None? && Meets(s, obs) && k == 7
      case WriteMarker(n, obs) => n + 1 < MAX_ATTEMPTS && Meets(s, obs) && k == 6
      case Recheck(n, obs) => n + 1 < MAX_ATTEMPTS && Meets(s, obs) && k == 5
      case ReapOwner(n, obs) => n + 1 < MAX_ATTEMPTS && Meets(s, obs) && k == 4
      case ReapDir(n, obs) => n + 1 < MAX_ATTEMPTS && Meets(s, obs) && s.dir.value.owner.Absent? && k == 3
      case CloseMarker(n, failed) => n + 1 < MAX_ATTEMPTS && !failed && s.dir.None? && k == 2
      case _ => false
  }

  predicate Meets(s: State, obs: Obs) {
    s.dir.Some? && s.dir.value.id == obs.id
  }

  lemma StepOnWay(s: State, p: Pid, k: nat)
    requires OnWay(s, p, k) && k > 0
    ensures OnWay(Run(s, p), p, k - 1)
  {
    var c := s.pcs[p];
    if c.Mkdir? || c.Stat? || c.ReadOwner? || c.Probe? {
      LookOnWay(s, p, k);
    } else {
      ReapOnWay(s, p, k);
    }
  }

  lemma LookOnWay(s: State, p: Pid, k: nat)
    requires OnWay(s, p, k) && k > 0
    requires var c := s.pcs[p]; c.Mkdir? || c.Stat? || c.ReadOwner? || c.Probe?
    ensures OnWay(Run(s, p), p, k - 1)
  {
    hide ReapStep, RecoverStep, HolderStep;
  }

  lemma ReapOnWay(s: State, p: Pid, k: nat)
    requires OnWay(s, p, k) && k > 0
    requires s.pcs[p].OpenMarker? || InMarker(s.pcs[p])
    ensures OnWay(Run(s, p), p, k - 1)
  {
    hide ObserveStep, RecoverStep, HolderStep, JudgedStale;
  }

  lemma WaitOnWay(s: State, a: Action, p: Pid, k: nat)
    requires OnWay(s, p, k) && Enabled(s, a) && (a.Tick? || (a.Crash? && a.p != p))
    ensures OnWay(Apply(s, a), p, k)
  {
  }

  /** A process on its way arrives after its own steps, however time passes in between. */
  lemma {:induction false} LoneTakes(s: State, acts: seq<Action>, p: Pid, k: nat)
    requires OnWay(s, p, k) && Possible(s, acts) && Lone(acts, p) && StepsBy(acts, p) == k
    ensures Owns(Exec(s, acts), p)
    decreases |acts|
  {
    hide OnWay, Apply, Enabled, Owns;
    if acts == [] {
      Arrived(s, p);
    } else {
      var a := acts[0];
      if a == Step(p) {
        StepOnWay(s, p, k);
        ApplyIsRun(s, p);
        LoneTakes(Apply(s, a), acts[1..], p, k - 1);
      } else {
        WaitOnWay(s, a, p, k);
        LoneTakes(Apply(s, a), acts[1..], p, k);
      }
    }
  }

  lemma Arrived(s: State, p: Pid)
    requires OnWay(s, p, 0)
    ensures Owns(s, p)
  {
  }

  lemma ApplyIsRun(s: State, p: Pid)
    requires Enabled(s, Step(p))
    ensures Apply(s, Step(p)) == Run(s, p)
  {
  }

  /** A process that meets a lock it does not judge stale: an empty owner file, or a missing one too young. */
  predicate Blocked(s: State, p: Pid) {
    && Alive(s, p) && s.dir.Some? && s.dir.value.creator != p && !s.dir.value.owner.Holds?
    && (s.dir.value.owner.Absent? ==> s.now - s.dir.value.mtime <= WINDOW_MS)
    && match s.pcs[p]
       case Idle => true
       case Mkdir(_) => true
       case Stat(_) => true
       case ReadOwner(_, obs) => obs == Obs(s.dir.value.id, s.dir.value.mtime)
       case _ => false
  }

  lemma BlockedStep(s: State, p: Pid)
    requires Blocked(s, p)
    ensures Blocked(Run(s, p), p)
  {
  }

  /** While no time passes it stays blocked, for any number of steps. */
  lemma {:induction false} BlockedSteps(s: State, p: Pid, m: nat) returns (acts: seq<Action>)
    requires Blocked(s, p)
    ensures Possible(s, acts) && Lone(acts, p) && StepsBy(acts, p) == m && !Owns(Exec(s, acts), p)
    decreases m
  {
    hide Run;
    if m == 0 {
      acts := [];
    } else {
      BlockedStep(s, p);
      var rest := BlockedSteps(Run(s, p), p, m - 1);
      acts := [Step(p)] + rest;
      assert acts[1..] == rest;
    }
  }

  /**
   Progress: a lone process takes a dead writer's lock under every schedule, after
   its eleventh step (its tenth if the owner file is missing), exactly when the owner
   file holds a pid or has been missing for more than the window.
   */
  lemma LoneTakesIff(s: State, p: Pid)
    requires Inv(s) && Alive(s, p) && s.pcs[p].Mkdir? && s.pcs[p].n + 1 < MAX_ATTEMPTS
    requires s.marker.None? && s.dir.Some? && !Alive(s, s.dir.value.creator)
    ensures
      var d := s.dir.value;
      (forall acts :: Possible(s, acts) && Lone(acts, p) && StepsBy(acts, p) == StepsNeeded(d) ==>
         Owns(Exec(s, acts), p))
      <==> d.owner.Holds? || (d.owner.Absent? && s.now - d.mtime > WINDOW_MS)
  {
    hide Possible, Lone, StepsBy, Exec, Owns;
    var d := s.dir.value;
    if d.owner.Holds? || (d.owner.Absent? && s.now - d.mtime > WINDOW_MS) {
      forall acts | Possible(s, acts) && Lone(acts, p) && StepsBy(acts, p) == StepsNeeded(d)
        ensures Owns(Exec(s, acts), p)
      {
        LoneTakes(s, acts, p, StepsNeeded(d));
      }
    } else {
      var acts := BlockedSteps(s, p, StepsNeeded(d));
    }
  }

  // ---------------------------------------------------------------------------
  // Contention with the living
  // ---------------------------------------------------------------------------

  predicate Survives(acts: seq<Action>, p: Pid) {
    forall i :: 0 <= i < |acts| ==> acts[i] != Crash(p)
  }

  lemma SurvivesRest(acts: seq<Action>, p: Pid)
    requires acts != [] && Survives(acts, p)
    ensures acts[0] != Crash(p) && Survives(acts[1..], p)
  {
    forall i | 0 <= i < |acts[1..]| ensures acts[1..][i] != Crash(p) {
      assert acts[1..][i] == acts[i + 1];
    }
  }

  /** Only a process's own steps and its crash move it. */
  lemma OthersDoNotMove(s: State, a: Action, p: Pid)
    requires Enabled(s, a) && p in s.pcs && a != Step(p) && a != Crash(p)
    ensures p in Apply(s, a).pcs && Apply(s, a).pcs[p] == s.pcs[p]
  {
  }

  /** Throughout the run the directory `id` stands and its creator lives. */
  ghost predicate HeldThroughout(s: State, acts: seq<Action>, id: nat)
    requires Possible(s, acts)
    decreases |acts|
  {
    && s.dir.Some? && s.dir.value.id == id && Alive(s, s.dir.value.creator)
    && (acts == [] || HeldThroughout(Apply(s, acts[0]), acts[1..], id))
  }

  /** Where `p` is `k` own steps after the mkdir of attempt `n` met the live directory `id`. */
  predicate Looking(s: State, p: Pid, n: nat, id: nat, k: nat) {
    Alive(s, p) &&
    match s.pcs[p]
    case Mkdir(m) => (m == n && k == 0) || (m == n + 1 && (k == 3 || k == 4))
    case Stat(m) => m == n && k == 1
    case ReadOwner(m, obs) => m == n && k == 2 && obs.id == id
    case Probe(m, obs, _) => m == n && k == 3 && obs.id == id
    case _ => false
  }

  /** In some state of the run, its first and last included, `p` is at `c`. */
  ghost predicate Visits(s: State, acts: seq<Action>, p: Pid, c: Pc)
    requires Possible(s, acts)
    decreases |acts|
  {
    || (p in s.pcs && s.pcs[p] == c)
    || (acts != [] && Visits(Apply(s, acts[0]), acts[1..], p, c))
  }

  lemma LookStep(s: State, p: Pid, n: nat, id: nat, k: nat)
    requires Inv(s) && Looking(s, p, n, id, k) && n < MAX_ATTEMPTS && s.pcs[p] != Mkdir(n + 1)
    requires s.dir.Some? && s.dir.value.id == id && Alive(s, s.dir.value.creator)
    ensures k < 4 && Looking(Run(s, p), p, n, id, k + 1)
  {
    hide ReapStep, RecoverStep, HolderStep, MarkerInv;
    assert KnowledgeInv(s, s.pcs[p]);
  }

  /**
   A live lock is contention to retry: while the directory and its creator last,
   whatever anyone does, a process that meets it begins its next attempt within
   four steps of its own.
   */
  lemma {:induction false} LiveLockIsRetried(s: State, acts: seq<Action>, p: Pid, n: nat, id: nat, k: nat)
    requires Inv(s) && Possible(s, acts) && Survives(acts, p) && HeldThroughout(s, acts, id)
    requires Looking(s, p, n, id, k) && n < MAX_ATTEMPTS && k + StepsBy(acts, p) >= 4
    ensures Visits(s, acts, p, Mkdir(n + 1))
    decreases |acts|
  {
    hide Inv, Apply, Enabled, Looking;
    LookingLimit(s, p, n, id, k);
    if s.pcs[p] != Mkdir(n + 1) {
      if acts != [] {
        var a := acts[0];
        SurvivesRest(acts, p);
        ApplyKeepsInv(s, a);
        if a == Step(p) {
          LookStep(s, p, n, id, k);
          ApplyIsRun(s, p);
          LiveLockIsRetried(Apply(s, a), acts[1..], p, n, id, k + 1);
        } else {
          WaitLooking(s, a, p, n, id, k);
          LiveLockIsRetried(Apply(s, a), acts[1..], p, n, id, k);
        }
      }
    }
  }

  lemma LookingLimit(s: State, p: Pid, n: nat, id: nat, k: nat)
    requires Looking(s, p, n, id, k)
    ensures p in s.pcs && (s.pcs[p] != Mkdir(n + 1) ==> k < 4)
  {
  }

  lemma WaitLooking(s: State, a: Action, p: Pid, n: nat, id: nat, k: nat)
    requires Looking(s, p, n, id, k) && Enabled(s, a) && a != Step(p) && a != Crash(p)
    ensures Looking(Apply(s, a), p, n, id, k)
  {
    OthersDoNotMove(s, a, p);
  }

  /** The owner file names a live process. */
  predicate HeldBy(s: State, q: Pid) {
    s.dir.Some? && s.dir.value.owner == Holds(q) && Alive(s, q)
  }

  /**
   With the pid written and no one else moving, the four steps are mkdir, stat, read
   and probe, and they change nothing but where the process is.
   */
  lemma LiveHolderIsLeftAlone(s: State, p: Pid, q: Pid)
    requires Alive(s, p) && s.pcs[p].Mkdir? && s.pcs[p].n < MAX_ATTEMPTS && HeldBy(s, q)
    ensures Run(Run(Run(Run(s, p), p), p), p) == Goto(s, p, Mkdir(s.pcs[p].n + 1))
  {
    hide ReapStep, RecoverStep, HolderStep;
    var n, d := s.pcs[p].n, s.dir.value;
    var s1 := Run(s, p);
    assert s1 == Goto(s, p, Stat(n));
    var s2 := Run(s1, p);
    assert s2 == Goto(s, p, ReadOwner(n, Obs(d.id, d.mtime)));
    var s3 := Run(s2, p);
    assert s3 == Goto(s, p, Probe(n, Obs(d.id, d.mtime), q));
    assert Alive(s3, q);
  }

  /** A lock that was released meanwhile is taken by the very next step. */
  lemma ReleasedLockIsTaken(s: State, acts: seq<Action>, p: Pid, n: nat)
    requires Possible(s, acts) && Survives(acts, p) && StepsBy(acts, p) == 0
    requires Alive(s, p) && s.pcs[p] == Mkdir(n) && n < MAX_ATTEMPTS && Exec(s, acts).dir.None?
    ensures var t := Exec(s, acts); Alive(t, p) && Owns(Run(t, p), p)
  {
    hide Run;
    StaysWithoutSteps(s, acts, p);
    TakesFree(Exec(s, acts), p);
  }

  lemma TakesFree(s: State, p: Pid)
    requires Alive(s, p) && s.pcs[p].Mkdir? && s.pcs[p].n < MAX_ATTEMPTS && s.dir.None?
    ensures Owns(Run(s, p), p)
  {
  }

  lemma {:induction false} StaysWithoutSteps(s: State, acts: seq<Action>, p: Pid)
    requires Possible(s, acts) && Survives(acts, p) && StepsBy(acts, p) == 0 && p in s.pcs
    ensures p in Exec(s, acts).pcs && Exec(s, acts).pcs[p] == s.pcs[p]
    decreases |acts|
  {
    hide Apply, Enabled;
    if acts != [] {
      SurvivesRest(acts, p);
      OthersDoNotMove(s, acts[0], p);
      StaysWithoutSteps(Apply(s, acts[0]), acts[1..], p);
    }
  }

  // ---------------------------------------------------------------------------
  // The reaper marker
  // ---------------------------------------------------------------------------

  /** `k` steps of one process, nobody else moving. */
  function OwnSteps(s: State, p: Pid, k: nat): State
    decreases k
  {
    if k == 0 || !Alive(s, p) then s else OwnSteps(Run(s, p), p, k - 1)
  }

  /** A marker that names a dead process, or names none and was last written over a window ago. */
  predicate MarkerIsStale(s: State) {
    s.marker.Some? &&
    match s.marker.value.text
    case Some(q) => !Alive(s, q)
    case None => s.now - s.marker.value.mtime > WINDOW_MS
  }

  /** How many steps it takes to find out, and to unlink it if so. */
  function RecoverySteps(s: State): nat {
    if s.marker.None? then 1
    else (if s.marker.value.text.Some? then 3 else 2) + if MarkerIsStale(s) then 2 else 0
  }

  /** What the attempt comes back to: the marker gone exactly if it was stale. */
  function Recovered(s: State, p: Pid, n: nat): State {
    Goto(if MarkerIsStale(s) then s.(marker := None) else s, p, Mkdir(n + 1))
  }

  /** A process that cannot open the marker removes it exactly if it is stale, changes nothing else, and tries again. */
  lemma StaleMarkerIsRemoved(s: State, p: Pid)
    requires Alive(s, p) && s.pcs[p].StatMarker?
    ensures OwnSteps(s, p, RecoverySteps(s)) == Recovered(s, p, s.pcs[p].n)
  {
    hide ReapStep, ObserveStep, HolderStep, OwnSteps, MarkerIsStale;
    OneStep(s, p, RecoverySteps(s));
    if s.marker.Some? {
      var next := Run(s, p);
      assert next == Goto(s, p, ReadMarker(s.pcs[p].n, Obs(s.marker.value.id, s.marker.value.mtime)));
      SameMarker(s, p, next.pcs[p]);
      ReadRemoves(next, p);
    } else {
      NoMarker(s);
    }
  }

  lemma NoMarker(s: State)
    requires s.marker.None?
    ensures !MarkerIsStale(s)
  {
  }

  /** Moving one live process does not change what the marker is. */
  lemma SameMarker(s: State, p: Pid, c: Pc)
    requires Alive(s, p) && !c.Dead?
    ensures MarkerIsStale(Goto(s, p, c)) == MarkerIsStale(s)
    ensures forall n :: Recovered(Goto(s, p, c), p, n) == Recovered(s, p, n)
  {
  }

  lemma ReadRemoves(s: State, p: Pid)
    requires Alive(s, p) && s.pcs[p].ReadMarker? && s.marker.Some?
    requires s.pcs[p].obs == Obs(s.marker.value.id, s.marker.value.mtime)
    ensures OwnSteps(s, p, RecoverySteps(s) - 1) == Recovered(s, p, s.pcs[p].n)
  {
    hide ReapStep, ObserveStep, HolderStep, OwnSteps;
    var n, obs, m := s.pcs[p].n, s.pcs[p].obs, s.marker.value;
    var next := Run(s, p);
    OneStep(s, p, RecoverySteps(s) - 1);
    SameMarker(s, p, next.pcs[p]);
    if m.text.Some? {
      assert next == Goto(s, p, ProbeMarker(n, obs, m.text.value));
      ProbeRemoves(next, p);
    } else if MarkerIsStale(s) {
      assert next == Goto(s, p, RestatMarker(n, obs));
      RestatRemoves(next, p);
    }
  }

  lemma ProbeRemoves(s: State, p: Pid)
    requires Alive(s, p) && s.pcs[p].ProbeMarker? && s.marker.Some? && s.marker.value.id == s.pcs[p].obs.id
    requires s.marker.value.text == Some(s.pcs[p].pid)
    ensures OwnSteps(s, p, RecoverySteps(s) - 2) == Recovered(s, p, s.pcs[p].n)
  {
    hide ReapStep, ObserveStep, HolderStep, OwnSteps;
    var next := Run(s, p);
    OneStep(s, p, RecoverySteps(s) - 2);
    SameMarker(s, p, next.pcs[p]);
    if MarkerIsStale(s) {
      assert next == Goto(s, p, RestatMarker(s.pcs[p].n, s.pcs[p].obs));
      RestatRemoves(next, p);
    }
  }

  lemma OneStep(s: State, p: Pid, k: nat)
    requires Alive(s, p) && k > 0
    ensures OwnSteps(s, p, k) == OwnSteps(Run(s, p), p, k - 1)
    ensures OwnSteps(Run(s, p), p, 0) == Run(s, p)
  {
  }

  lemma RestatRemoves(s: State, p: Pid)
    requires Alive(s, p) && s.pcs[p].RestatMarker? && s.marker.Some? && s.marker.value.id == s.pcs[p].obs.id
    ensures OwnSteps(s, p, 2) == Goto(s.(marker := None), p, Mkdir(s.pcs[p].n + 1))
  {
    hide ReapStep, ObserveStep, HolderStep;
    var s1 := Run(s, p);
    assert s1 == Goto(s, p, UnlinkMarker(s.pcs[p].n));
    OneStep(s, p, 2);
    OneStep(s1, p, 1);
  }

  /** The process that opens the marker owns it, names itself in it, and takes it away when it is done. */
  lemma MarkerNamesReaper(s: State, p: Pid)
    requires Alive(s, p)
    ensures s.pcs[p].OpenMarker? && s.marker.None? ==>
      OwnSteps(s, p, 2).marker == Some(Marker(s.nextId, p, s.now, s.now, Some(p)))
    ensures s.pcs[p].WriteMarker? && s.marker.Some? ==>
      Run(s, p).marker == Some(Marker(s.marker.value.id, s.marker.value.holder, s.marker.value.born, s.now, Some(p)))
    ensures s.pcs[p].CloseMarker? ==> Run(s, p).marker.None? && Run(s, p).dir == s.dir
  {
    if s.pcs[p].OpenMarker? && s.marker.None? {
      OneStep(s, p, 2);
      OneStep(Run(s, p), p, 1);
    }
  }

  /** A directory that still holds its owner file is not removed by anyone: for a reaper that is a failure. */
  lemma FilledDirectoryStands(s: State, a: Action)
    requires Enabled(s, a) && s.dir.Some? && !s.dir.value.owner.Absent?
    ensures Apply(s, a).dir.Some? && Apply(s, a).dir.value.id == s.dir.value.id
    ensures a.Step? && s.pcs[a.p].ReapDir? ==> Apply(s, a).pcs[a.p] == CloseMarker(s.pcs[a.p].n, true)
  {
  }

  // ---------------------------------------------------------------------------
  // Giving up
  // ---------------------------------------------------------------------------

  /** Between the first mkdir of a call and its end or success. */
  predicate Trying(s: State, p: Pid) {
    Alive(s, p) && !s.pcs[p].Idle? && !InLock(s.pcs[p])
  }

  ghost predicate TriesThroughout(s: State, acts: seq<Action>, p: Pid)
    requires Possible(s, acts)
    decreases |acts|
  {
    Trying(s, p) && (acts == [] || TriesThroughout(Apply(s, acts[0]), acts[1..], p))
  }

  /** How many times `p` finds a directory in its way. */
  function Attempts(s: State, acts: seq<Action>, p: Pid): nat
    requires Possible(s, acts)
    decreases |acts|
  {
    if acts == [] then 0
    else (if acts[0] == Step(p) && s.pcs[p].Mkdir? then 1 else 0) + Attempts(Apply(s, acts[0]), acts[1..], p)
  }

  /** The attempts that have begun when a process stands at `c`. */
  function Begun(c: Pc): nat {
    match c
    case Mkdir(n) => n
    case Stat(n) => n + 1
    case ReadOwner(n, _) => n + 1
    case Probe(n, _, _) => n + 1
    case OpenMarker(n, _) => n + 1
    case WriteMarker(n, _) => n + 1
    case Recheck(n, _) => n + 1
    case ReapOwner(n, _) => n + 1
    case ReapDir(n, _) => n + 1
    case CloseMarker(n, _) => n + 1
    case StatMarker(n) => n + 1
    case ReadMarker(n, _) => n + 1
    case ProbeMarker(n, _, _) => n + 1
    case RestatMarker(n, _) => n + 1
    case UnlinkMarker(n) => n + 1
    case _ => 0
  }

  lemma BegunStep(s: State, p: Pid)
    requires Trying(s, p) && Begun(s.pcs[p]) <= MAX_ATTEMPTS && Trying(Run(s, p), p)
    ensures Begun(Run(s, p).pcs[p]) == Begun(s.pcs[p]) + if s.pcs[p].Mkdir? then 1 else 0
    ensures Begun(Run(s, p).pcs[p]) <= MAX_ATTEMPTS
  {
  }

  lemma {:induction false} BegunCountsAttempts(s: State, acts: seq<Action>, p: Pid)
    requires Possible(s, acts) && TriesThroughout(s, acts, p) && Begun(s.pcs[p]) <= MAX_ATTEMPTS
    ensures Trying(Exec(s, acts), p)
    ensures Begun(Exec(s, acts).pcs[p]) == Begun(s.pcs[p]) + Attempts(s, acts, p) <= MAX_ATTEMPTS
    decreases |acts|
  {
    hide Apply, Enabled, Begun, Run;
    if acts != [] {
      var a := acts[0];
      if a == Step(p) {
        ApplyIsRun(s, p);
        BegunStep(s, p);
      } else {
        StillTrying(s, a, p);
      }
      BegunCountsAttempts(Apply(s, a), acts[1..], p);
    }
  }

  lemma StillTrying(s: State, a: Action, p: Pid)
    requires Trying(s, p) && Enabled(s, a) && a != Step(p) && Trying(Apply(s, a), p)
    ensures Apply(s, a).pcs[p] == s.pcs[p]
  {
    if a != Crash(p) { OthersDoNotMove(s, a, p); }
  }

  /** One step ends a call without the lock only after the last attempt, or after a reaping that failed. */
  lemma GivesUpIff(s: State, p: Pid)
    requires Trying(s, p)
    ensures Run(s, p).pcs[p].Idle? <==>
      (s.pcs[p].Mkdir? && s.pcs[p].n >= MAX_ATTEMPTS) || (s.pcs[p].CloseMarker? && s.pcs[p].failed)
  {
  }

  /** A call that ends without the lock, and not by a failed reaping, has met a directory on all of its attempts. */
  lemma BusyAfterAllAttempts(s: State, acts: seq<Action>, p: Pid)
    requires Alive(s, p) && s.pcs[p] == Mkdir(0) && Possible(s, acts) && TriesThroughout(s, acts, p)
    requires var t := Exec(s, acts); Trying(t, p) && Run(t, p).pcs[p].Idle? && !t.pcs[p].CloseMarker?
    ensures Attempts(s, acts, p) == MAX_ATTEMPTS
  {
    hide Run;
    BegunCountsAttempts(s, acts, p);
    GivesUpIff(Exec(s, acts), p);
  }

  // ---------------------------------------------------------------------------
  // The holder
  // ---------------------------------------------------------------------------

  /** Where a process that took the lock is after `j` steps of its own. */
  function Holding(j: nat): Pc
    requires j <= 4
  {
    if j == 0 then CreateOwner else if j == 1 then WriteOwner else if j == 2 then Critical
    else if j == 3 then UnlinkOwner else RemoveDir
  }

  lemma HolderMoves(s: State, p: Pid, j: nat)
    requires Inv(s) && Alive(s, p) && j < 4 && s.pcs[p] == Holding(j)
    ensures Alive(Run(s, p), p) && Run(s, p).pcs[p] == Holding(j + 1)
  {
    hide KnowledgeInv, MarkerInv;
  }

  lemma {:induction false} HolderRuns(s: State, acts: seq<Action>, p: Pid, j: nat)
    requires Inv(s) && Possible(s, acts) && Survives(acts, p)
    requires Alive(s, p) && j + StepsBy(acts, p) <= 4 && s.pcs[p] == Holding(j)
    ensures Alive(Exec(s, acts), p) && Exec(s, acts).pcs[p] == Holding(j + StepsBy(acts, p))
    decreases |acts|
  {
    hide Inv, Apply, Enabled, Run;
    if acts != [] {
      var a := acts[0];
      SurvivesRest(acts, p);
      ApplyKeepsInv(s, a);
      if a == Step(p) {
        ApplyIsRun(s, p);
        HolderMoves(s, p, j);
        HolderRuns(Apply(s, a), acts[1..], p, j + 1);
      } else {
        OthersDoNotMove(s, a, p);
        HolderRuns(Apply(s, a), acts[1..], p, j);
      }
    }
  }

  /** Two steps after its mkdir, whatever the others do, the holder's pid is in the owner file of its own directory. */
  lemma HolderIsNamed(s: State, acts: seq<Action>, p: Pid)
    requires Inv(s) && Possible(s, acts) && Survives(acts, p) && StepsBy(acts, p) == 2
    requires Alive(s, p) && s.pcs[p] == CreateOwner
    ensures
      var t := Exec(s, acts);
      && Alive(t, p) && t.pcs[p] == Critical && t.dir.Some? && t.dir.value.id == s.dir.value.id
      && t.dir.value.creator == p && t.dir.value.owner == Holds(p)
  {
    hide Run, Apply, Enabled, KnowledgeInv, MarkerInv;
    HolderRuns(s, acts, p, 0);
    ExecKeepsInv(s, acts);
    HolderKeepsDir(s, acts, p, 0);
  }

  /** A holder's directory is its own until it is removed. */
  lemma {:induction false} HolderKeepsDir(s: State, acts: seq<Action>, p: Pid, j: nat)
    requires Inv(s) && Possible(s, acts) && Survives(acts, p)
    requires Alive(s, p) && j + StepsBy(acts, p) <= 4 && s.pcs[p] == Holding(j)
    ensures s.dir.Some? && Exec(s, acts).dir.Some? && Exec(s, acts).dir.value.id == s.dir.value.id
    decreases |acts|
  {
    hide Apply, Enabled, Run, KnowledgeInv, MarkerInv, Timely;
    if acts != [] {
      var a := acts[0];
      SurvivesRest(acts, p);
      ApplyKeepsInv(s, a);
      HolderDirStep(s, a, p, j);
      if a == Step(p) {
        ApplyIsRun(s, p);
        HolderMoves(s, p, j);
        HolderKeepsDir(Apply(s, a), acts[1..], p, j + 1);
      } else {
        OthersDoNotMove(s, a, p);
        HolderKeepsDir(Apply(s, a), acts[1..], p, j);
      }
    }
  }

  lemma HolderDirStep(s: State, a: Action, p: Pid, j: nat)
    requires Inv(s) && Enabled(s, a) && Alive(s, p) && j <= 4 && s.pcs[p] == Holding(j)
    requires a != Crash(p) && (a == Step(p) ==> j < 4)
    ensures s.dir.Some? && Apply(s, a).dir.Some? && Apply(s, a).dir.value.id == s.dir.value.id
  {
    if a == Step(p) {
      hide KnowledgeInv, MarkerInv, ObserveStep, ReapStep, RecoverStep;
    } else {
      LiveDirStands(s, a);
    }
  }

  /** What LiveLockIsNeverReaped says of reachable states holds under the invariant. */
  lemma LiveDirStands(s: State, a: Action)
    requires Inv(s) && Enabled(s, a) && s.dir.Some? && Alive(s, s.dir.value.creator) && a != Step(s.dir.value.creator)
    ensures Apply(s, a).dir == s.dir
  {
    NobodyReaps(s);
    if a.Step? { assert KnowledgeInv(s, s.pcs[a.p]); }
  }

  /** A directory's time moves to the present exactly when its owner file comes or goes, not when the pid is written. */
  lemma DirectoryTimes(s: State, a: Action)
    requires Enabled(s, a) && s.dir.Some? && Apply(s, a).dir.Some? && Apply(s, a).dir.value.id == s.dir.value.id
    requires s.dir.value.id < s.nextId
    ensures
      var before, after := s.dir.value, Apply(s, a).dir.value;
      && (before.owner.Absent? != after.owner.Absent? ==> after.mtime == s.now)
      && (before.owner.Absent? == after.owner.Absent? ==> after.mtime == before.mtime)
  {
  }

  /** Releasing: two steps after the append the holder is about to remove its directory; its third frees the lock. */
  lemma ReleaseFrees(s: State, acts: seq<Action>, p: Pid)
    requires Inv(s) && Possible(s, acts) && Survives(acts, p) && StepsBy(acts, p) == 2
    requires Alive(s, p) && s.pcs[p] == Critical
    ensures var t := Exec(s, acts); Alive(t, p) && Run(t, p).pcs[p] == Idle && Run(t, p).dir.None?
  {
    hide Apply, Enabled, Run;
    HolderRuns(s, acts, p, 2);
    ExecKeepsInv(s, acts);
    RemoveFrees(Exec(s, acts), p);
  }

  lemma RemoveFrees(s: State, p: Pid)
    requires Inv(s) && Alive(s, p) && s.pcs[p] == RemoveDir
    ensures Run(s, p).pcs[p] == Idle && Run(s, p).dir.None?
  {
    hide KnowledgeInv, MarkerInv;
  }

  /** The stranded lock is reachable: two processes, one crash, four actions. */
  lemma EmptyOwnerIsReachable()
    ensures exists s, acts ::
      && Init(s) && Possible(s, acts)
      && (var t := Exec(s, acts);
          && t.dir.Some? && !Alive(t, t.dir.value.creator) && t.dir.value.owner.Empty?
          && t.marker.None? && Alive(t, 2))
  {
    var s := State(0, 0, None, None, map[1 := Idle, 2 := Idle]);
    var t := State(0, 1, Some(Dir(0, 1, 0, 0, Empty)), None, map[1 := Dead, 2 := Idle]);
    var acts := CrashRun(s, t);
    hide Possible, Exec;
    assert Possible(s, acts) && Exec(s, acts) == t;
  }

  lemma CrashRun(s: State, t: State) returns (acts: seq<Action>)
    requires s == State(0, 0, None, None, map[1 := Idle, 2 := Idle])
    requires t == State(0, 1, Some(Dir(0, 1, 0, 0, Empty)), None, map[1 := Dead, 2 := Idle])
    ensures Possible(s, acts) && Exec(s, acts) == t
  {
    hide Possible, Exec, Run;
    FourActions(s);
    var s1 := Run(s, 1);
    var s2 := Run(s1, 1);
    var s3 := Run(s2, 1);
    NothingMore(t);
    assert Apply(s3, Crash(1)) == t;
    FirstThen(s3, Crash(1), [], t);
    FirstThen(s2, Step(1), [Crash(1)] + [], t);
    FirstThen(s1, Step(1), [Step(1)] + ([Crash(1)] + []), t);
    acts := [Step(1)] + ([Step(1)] + ([Crash(1)] + []));
    FirstThen(s, Step(1), acts, t);
    acts := [Step(1)] + acts;
  }

  /** A process makes the directory, creates its owner file, and dies before it writes its pid. */
  lemma FourActions(s: State)
    requires s == State(0, 0, None, None, map[1 := Idle, 2 := Idle])
    ensures
      var s1 := Run(s, 1);
      && Alive(s1, 1)
      && (var s2 := Run(s1, 1);
          && Alive(s2, 1)
          && (var s3 := Run(s2, 1);
              && Alive(s3, 1)
              && s3 == State(0, 1, Some(Dir(0, 1, 0, 0, Empty)), None, map[1 := WriteOwner, 2 := Idle])))
  {
    hide ObserveStep, ReapStep, RecoverStep;
    var s1 := Run(s, 1);
    assert s1 == State(0, 0, None, None, map[1 := Mkdir(0), 2 := Idle]);
    var s2 := Run(s1, 1);
    assert s2 == State(0, 1, Some(Dir(0, 1, 0, 0, Absent)), None, map[1 := CreateOwner, 2 := Idle]);
  }

  lemma NothingMore(s: State)
    ensures Possible(s, []) && Exec(s, []) == s
  {
  }

  lemma FirstThen(s: State, a: Action, acts: seq<Action>, t: State)
    requires Enabled(s, a) && Possible(Apply(s, a), acts) && Exec(Apply(s, a), acts) == t
    ensures Possible(s, [a] + acts) && Exec(s, [a] + acts) == t
  {
    assert ([a] + acts)[1..] == acts;
  }
}
