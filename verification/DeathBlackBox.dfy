/**
 The death black box: a process leaves an anchor file while it lives and one
 record when it can say goodbye; the boot reaper joins the anchors left behind
 against the records and the live pids.
 */
module DeathBlackBox {
  import opened Decimals
  import opened Wrappers

  type Pid = nat

  datatype Kind = Launcher | Worker | Daemon

  datatype Presence = Presence(
    kind: Kind, id: string, pid: Pid, ppid: Pid, bootId: Option<string>, cgroup: Option<string>, lastPhase: string)

  datatype ExitPath = Exit | Signal | UncaughtException | UnhandledRejection

  datatype Record = Record(kind: Kind, id: string, pid: Pid, exitPath: ExitPath, lastPhase: string)

  // ---------------------------------------------------------------------------
  // Anchor file names
  // ---------------------------------------------------------------------------

  predicate Plain(c: char) {
    'A' <= c <= 'Z' || 'a' <= c <= 'z' || '0' <= c <= '9' || c == '.' || c == '_' || c == '-'
  }

  /** Every other character becomes an underscore. */
  function Sanitized(id: string): string {
    seq(|id|, i requires 0 <= i < |id| => if Plain(id[i]) then id[i] else '_')
  }

  function KindName(k: Kind): string {
    match k
    case Launcher => "launcher"
    case Worker => "worker"
    case Daemon => "daemon"
  }

  function FileName(kind: Kind, id: string, pid: Pid): string {
    KindName(kind) + ("-" + (Sanitized(id) + ("-" + (Decimal(pid) + ".toon"))))
  }

  const UPPER := "ABCDEFGHIJKLM" + "NOPQRSTUVWXYZ"
  const LOWER := "abcdefghijklm" + "nopqrstuvwxyz"
  const OTHERS := "0123456789._-"

  /** Thirteen letters in a row, as both halves of both alphabets are. */
  lemma RowIff(c: char, letters: string, first: char)
    requires |letters| == 13 && first as int < 0x1000
    requires forall i :: 0 <= i < 13 ==> letters[i] as int == first as int + i
    ensures c in letters <==> first as int <= c as int <= first as int + 12
  {
    if first as int <= c as int <= first as int + 12 { assert letters[c as int - first as int] == c; }
  }

  lemma UpperIff(c: char)
    ensures c in UPPER <==> 'A' <= c <= 'Z'
  {
    RowIff(c, "ABCDEFGHIJKLM", 'A');
    RowIff(c, "NOPQRSTUVWXYZ", 'N');
  }

  lemma LowerIff(c: char)
    ensures c in LOWER <==> 'a' <= c <= 'z'
  {
    RowIff(c, "abcdefghijklm", 'a');
    RowIff(c, "nopqrstuvwxyz", 'n');
  }

  lemma OthersIff(c: char)
    ensures c in OTHERS <==> '0' <= c <= '9' || c == '.' || c == '_' || c == '-'
  {
    if '0' <= c <= '9' { assert OTHERS[c as int - '0' as int] == c; }
    assert OTHERS[10] == '.' && OTHERS[11] == '_' && OTHERS[12] == '-';
  }

  /** Letters, digits and three marks stay as they are, and everything else becomes an underscore. */
  lemma SanitizedIs(id: string, i: nat)
    requires i < |id|
    ensures |Sanitized(id)| == |id|
    ensures Sanitized(id)[i] == if id[i] in UPPER || id[i] in LOWER || id[i] in OTHERS then id[i] else '_'
  {
    hide UPPER, LOWER, OTHERS;
    UpperIff(id[i]);
    LowerIff(id[i]);
    OthersIff(id[i]);
  }

  /** Ids written with those characters have files of their own. */
  lemma PlainIdsDiffer(kind: Kind, id: string, id': string, pid: Pid)
    requires forall i :: 0 <= i < |id| ==> id[i] in UPPER || id[i] in LOWER || id[i] in OTHERS
    requires forall i :: 0 <= i < |id'| ==> id'[i] in UPPER || id'[i] in LOWER || id'[i] in OTHERS
    ensures FileName(kind, id, pid) == FileName(kind, id', pid) <==> id == id'
  {
    hide UPPER, LOWER, OTHERS, Sanitized, FileName;
    SameFileIff(kind, id, pid, kind, id', pid);
    PlainIsKept(id);
    PlainIsKept(id');
  }

  lemma PlainIsKept(id: string)
    requires forall i :: 0 <= i < |id| ==> id[i] in UPPER || id[i] in LOWER || id[i] in OTHERS
    ensures Sanitized(id) == id
  {
    hide UPPER, LOWER, OTHERS, Sanitized;
    if id != [] { SanitizedIs(id, 0); } else { EmptyIsKept(); }
    forall i | 0 <= i < |id| ensures Sanitized(id)[i] == id[i] {
      SanitizedIs(id, i);
    }
  }

  lemma EmptyIsKept()
    ensures Sanitized([]) == []
  {
  }

  /** A text without the separator before it, or after it, is recovered from the whole. */
  lemma SplitFirst(a: string, b: string, c: string, d: string)
    requires '-' !in a && '-' !in c && a + ("-" + b) == c + ("-" + d)
    ensures a == c && b == d
  {
    var s, t := a + ("-" + b), c + ("-" + d);
    assert s[|a|] == '-' && t[|c|] == '-';
    assert a == s[..|a|] && c == t[..|c|];
    assert b == s[|a| + 1..] && d == t[|c| + 1..];
  }

  lemma SplitLast(a: string, b: string, c: string, d: string)
    requires '-' !in b && '-' !in d && a + ("-" + b) == c + ("-" + d)
    ensures a == c && b == d
  {
    var s, t := a + ("-" + b), c + ("-" + d);
    assert s[|a|] == '-' && t[|c|] == '-';
    assert a == s[..|a|] && c == t[..|c|];
    assert b == s[|a| + 1..] && d == t[|c| + 1..];
  }

  lemma KindNames(k: Kind, l: Kind)
    ensures '-' !in KindName(k)
    ensures KindName(k) == KindName(l) ==> k == l
  {
    assert KindName(Launcher)[0] == 'l' && KindName(Worker)[0] == 'w' && KindName(Daemon)[0] == 'd';
  }

  /**
   Two anchors share a file exactly when they agree on kind and pid and their
   ids sanitise alike: a unique (pid, id) alone does not give a unique file.
   */
  lemma SameFileIff(kind: Kind, id: string, pid: Pid, kind': Kind, id': string, pid': Pid)
    ensures FileName(kind, id, pid) == FileName(kind', id', pid') <==>
            kind == kind' && Sanitized(id) == Sanitized(id') && pid == pid'
  {
    if FileName(kind, id, pid) == FileName(kind', id', pid') {
      KindNames(kind, kind');
      KindNames(kind', kind);
      var d, d' := Decimal(pid) + ".toon", Decimal(pid') + ".toon";
      SplitFirst(KindName(kind), Sanitized(id) + ("-" + d), KindName(kind'), Sanitized(id') + ("-" + d'));
      SplitLast(Sanitized(id), d, Sanitized(id'), d');
      assert Decimal(pid) == d[..|d| - 5] && Decimal(pid') == d'[..|d'| - 5];
      DecimalInjective(pid, pid');
    }
  }

  // ---------------------------------------------------------------------------
  // The verdict
  // ---------------------------------------------------------------------------

  datatype SenderClass = Oomd | UserSignal | ParentDeath | Teardown | UnknownSender

  datatype Confidence = High | Medium | NoConfidence

  /** One piece of evidence a verdict rests on. */
  datatype Clue =
    | Line(text: string)
    | MayBeReusedPid
    | InsideKilledScope(cgroup: string)
    | SentBy(uid: nat)
    | ParentRecorded(pid: Pid)
    | BootIdChanged
    | NoShutdownRecord

  /** What the host could tell: its boot id, its live pids and the journal tail. */
  datatype Evidence = Evidence(bootId: Option<string>, livePids: set<Pid>, journal: seq<string>)

  /** The journal patterns, uninterpreted. */
  datatype Patterns = Patterns(
    oomPid: string -> Option<nat>,
    oomKeyedPid: string -> Option<nat>,
    oomdScope: string -> Option<string>,
    auditPid: string -> Option<nat>,
    auditSignal: string -> Option<nat>,
    auditUid: string -> Option<nat>,
    shutdown: string -> bool)

  datatype Verdict = Verdict(
    kind: Kind, id: string, pid: Pid, lastPhase: string,
    sender: SenderClass, confidence: Confidence, signal: Option<string>, bootChanged: bool, evidence: seq<Clue>)

  function FirstWhere(journal: seq<string>, p: string -> bool): Option<string> {
    if journal == [] then None else if p(journal[0]) then Some(journal[0]) else FirstWhere(journal[1..], p)
  }

  /** Either form of the kernel's own record of an out-of-memory kill. */
  predicate NamesOomVictim(pats: Patterns, line: string, pid: Pid) {
    pats.oomPid(line) == Some(pid) || pats.oomKeyedPid(line) == Some(pid)
  }

  predicate InScope(scope: Option<string>, cgroup: string) {
    scope.Some? && (scope.value == cgroup || scope.value + "/" <= cgroup)
  }

  function SignalName(n: nat): Option<string> {
    if n == 2 then Some("SIGINT") else if n == 9 then Some("SIGKILL") else if n == 15 then Some("SIGTERM") else None
  }

  predicate BootChanged(p: Presence, e: Evidence) {
    p.bootId.Some? && e.bootId.Some? && p.bootId != e.bootId
  }

  predicate HasRecord(lane: seq<Record>, pid: Pid, id: string) {
    exists i :: 0 <= i < |lane| && lane[i].pid == pid && lane[i].id == id
  }

  predicate HasPid(lane: seq<Record>, pid: Pid) {
    exists i :: 0 <= i < |lane| && lane[i].pid == pid
  }

  predicate NamedByAudit(line: string, pid: Pid, pats: Patterns) {
    pats.auditPid(line) == Some(pid) && pats.auditSignal(line).Some?
  }

  /** attributeDeath: the most specific source that speaks decides. */
  function Attribute(p: Presence, e: Evidence, pats: Patterns, deaths: seq<Record>): Verdict {
    var changed := BootChanged(p, e);
    var verdict := (sender: SenderClass, confidence: Confidence, signal: Option<string>, clues: seq<Clue>) =>
      Verdict(p.kind, p.id, p.pid, p.lastPhase, sender, confidence, signal, changed, clues);
    var across := if changed then [MayBeReusedPid] else [];
    var direct := if changed then Medium else High;
    var oom := FirstWhere(e.journal, line => NamesOomVictim(pats, line, p.pid));
    var scoped := if p.cgroup.None? then None
                  else FirstWhere(e.journal, line => InScope(pats.oomdScope(line), p.cgroup.value));
    var audit := FirstWhere(e.journal, line => NamedByAudit(line, p.pid, pats));
    if oom.Some? then verdict(Oomd, direct, Some("SIGKILL"), [Line(oom.value)] + across)
    else if scoped.Some? then
      if pats.oomdScope(scoped.value) == p.cgroup
      then verdict(Oomd, direct, Some("SIGKILL"), [Line(scoped.value)] + across)
      else verdict(Oomd, Medium, Some("SIGKILL"), [Line(scoped.value), InsideKilledScope(p.cgroup.value)] + across)
    else if audit.Some? then
      var n := pats.auditSignal(audit.value);
      var uid := pats.auditUid(audit.value);
      verdict(UserSignal, direct, if n.Some? then SignalName(n.value) else None,
              [Line(audit.value)] + (if uid.Some? then [SentBy(uid.value)] else []) + across)
    else if HasPid(deaths, p.ppid) && p.ppid !in e.livePids
    then verdict(ParentDeath, Medium, None, [ParentRecorded(p.ppid)])
    else if changed then
      var announced := FirstWhere(e.journal, pats.shutdown);
      if announced.Some? then verdict(Teardown, High, None, [BootIdChanged, Line(announced.value)])
      else verdict(Teardown, Medium, None, [BootIdChanged, NoShutdownRecord])
    else verdict(UnknownSender, NoConfidence, None, [])
  }

  lemma {:induction false} FirstWhereFinds(journal: seq<string>, p: string -> bool)
    ensures FirstWhere(journal, p).Some? <==> exists i :: 0 <= i < |journal| && p(journal[i])
    ensures FirstWhere(journal, p).Some? ==> p(FirstWhere(journal, p).value)
  {
    if journal != [] && !p(journal[0]) {
      FirstWhereFinds(journal[1..], p);
      if exists i :: 0 <= i < |journal| && p(journal[i]) {
        var i :| 0 <= i < |journal| && p(journal[i]);
        assert journal[1..][i - 1] == journal[i];
      }
    }
  }

  /** Some source speaks about this death. */
  predicate Explained(p: Presence, e: Evidence, pats: Patterns, deaths: seq<Record>) {
    || (exists i :: 0 <= i < |e.journal| && NamesOomVictim(pats, e.journal[i], p.pid))
    || (p.cgroup.Some? && exists i :: 0 <= i < |e.journal| && InScope(pats.oomdScope(e.journal[i]), p.cgroup.value))
    || (exists i :: 0 <= i < |e.journal| && NamedByAudit(e.journal[i], p.pid, pats))
    || (HasPid(deaths, p.ppid) && p.ppid !in e.livePids)
    || BootChanged(p, e)
  }

  /**
   A verdict is `unknown` exactly when no source speaks, exactly when its
   confidence is `none`, exactly when it rests on nothing; a match keyed on a
   pid is never `high` across a reboot; a named signal comes from a source.
   */
  lemma VerdictIsHonest(p: Presence, e: Evidence, pats: Patterns, deaths: seq<Record>)
    ensures
      var v := Attribute(p, e, pats, deaths);
      && (v.sender.UnknownSender? <==> !Explained(p, e, pats, deaths))
      && (v.sender.UnknownSender? <==> v.confidence.NoConfidence?)
      && (v.sender.UnknownSender? <==> v.evidence == [])
      && (v.bootChanged && (v.sender.Oomd? || v.sender.UserSignal?) ==> v.confidence.Medium?)
      && (v.signal.Some? ==> v.sender.Oomd? || v.sender.UserSignal?)
      && (v.sender.Teardown? ==> v.bootChanged)
      && v.bootChanged == BootChanged(p, e)
      && v.kind == p.kind && v.id == p.id && v.pid == p.pid && v.lastPhase == p.lastPhase
  {
    FirstWhereFinds(e.journal, line => NamesOomVictim(pats, line, p.pid));
    if p.cgroup.Some? {
      FirstWhereFinds(e.journal, line => InScope(pats.oomdScope(line), p.cgroup.value));
    }
    FirstWhereFinds(e.journal, line => NamedByAudit(line, p.pid, pats));
  }

  /** The first line of the journal with the property. */
  predicate IsFirst(journal: seq<string>, i: nat, p: string -> bool) {
    i < |journal| && p(journal[i]) && forall j :: 0 <= j < i ==> !p(journal[j])
  }

  lemma {:induction false} FirstWhereIs(journal: seq<string>, p: string -> bool) returns (i: nat)
    ensures FirstWhere(journal, p).Some? ==> IsFirst(journal, i, p) && FirstWhere(journal, p).value == journal[i]
    ensures FirstWhere(journal, p).None? ==> forall j :: 0 <= j < |journal| ==> !p(journal[j])
  {
    i := 0;
    if journal != [] && !p(journal[0]) {
      i := FirstWhereIs(journal[1..], p);
      i := i + 1;
      assert forall j :: 0 < j < |journal| ==> journal[j] == journal[1..][j - 1];
    }
  }

  /** A line of the journal has the process as the kernel's victim, in either form. */
  predicate VictimNamed(p: Presence, e: Evidence, pats: Patterns) {
    exists i :: 0 <= i < |e.journal|
      && (pats.oomPid(e.journal[i]) == Some(p.pid) || pats.oomKeyedPid(e.journal[i]) == Some(p.pid))
  }

  /** The group is the scope or lies below it. */
  predicate Within(cgroup: string, scope: string) {
    cgroup == scope || (|scope| < |cgroup| && cgroup[..|scope|] == scope && cgroup[|scope|] == '/')
  }

  predicate ScopeKilled(p: Presence, e: Evidence, pats: Patterns) {
    p.cgroup.Some? &&
    exists i :: 0 <= i < |e.journal|
      && pats.oomdScope(e.journal[i]).Some? && Within(p.cgroup.value, pats.oomdScope(e.journal[i]).value)
  }

  predicate SignalAudited(p: Presence, e: Evidence, pats: Patterns) {
    exists i :: 0 <= i < |e.journal|
      && pats.auditPid(e.journal[i]) == Some(p.pid) && pats.auditSignal(e.journal[i]).Some?
  }

  predicate ParentGone(p: Presence, e: Evidence, deaths: seq<Record>) {
    p.ppid !in e.livePids && exists i :: 0 <= i < |deaths| && deaths[i].pid == p.ppid
  }

  /** Both boots are known, and they are two. */
  predicate Rebooted(p: Presence, e: Evidence) {
    match (p.bootId, e.bootId)
    case (Some(then_), Some(now)) => then_ != now
    case _ => false
  }

  lemma SourcesAre(p: Presence, e: Evidence, pats: Patterns, deaths: seq<Record>)
    ensures VictimNamed(p, e, pats) <==>
      exists i :: 0 <= i < |e.journal| && NamesOomVictim(pats, e.journal[i], p.pid)
    ensures ScopeKilled(p, e, pats) <==>
      (p.cgroup.Some? &&
       exists i :: 0 <= i < |e.journal| && InScope(pats.oomdScope(e.journal[i]), p.cgroup.value))
    ensures SignalAudited(p, e, pats) <==>
      exists i :: 0 <= i < |e.journal| && NamedByAudit(e.journal[i], p.pid, pats)
    ensures ParentGone(p, e, deaths) <==> HasPid(deaths, p.ppid) && p.ppid !in e.livePids
    ensures Rebooted(p, e) <==> BootChanged(p, e)
  {
    if p.cgroup.Some? {
      forall i | 0 <= i < |e.journal|
        ensures InScope(pats.oomdScope(e.journal[i]), p.cgroup.value) <==>
          pats.oomdScope(e.journal[i]).Some? && Within(p.cgroup.value, pats.oomdScope(e.journal[i]).value)
      {
        if pats.oomdScope(e.journal[i]).Some? { WithinIff(p.cgroup.value, pats.oomdScope(e.journal[i]).value); }
      }
    }
  }

  lemma WithinIff(cgroup: string, scope: string)
    ensures Within(cgroup, scope) <==> cgroup == scope || scope + "/" <= cgroup
  {
    if |scope| < |cgroup| {
      assert cgroup[..|scope| + 1] == cgroup[..|scope|] + [cgroup[|scope|]];
    }
  }

  /** Each cause is named exactly when its source speaks and no more specific one does. */
  lemma SenderIff(p: Presence, e: Evidence, pats: Patterns, deaths: seq<Record>)
    ensures
      var sender := Attribute(p, e, pats, deaths).sender;
      var oom := VictimNamed(p, e, pats) || ScopeKilled(p, e, pats);
      var audited, orphaned := SignalAudited(p, e, pats), ParentGone(p, e, deaths);
      && (sender.Oomd? <==> oom)
      && (sender.UserSignal? <==> !oom && audited)
      && (sender.ParentDeath? <==> !oom && !audited && orphaned)
      && (sender.Teardown? <==> !oom && !audited && !orphaned && Rebooted(p, e))
      && (sender.UnknownSender? <==> !oom && !audited && !orphaned && !Rebooted(p, e))
  {
    hide NamesOomVictim, InScope, NamedByAudit, FirstWhere, SignalName, BootChanged, HasPid;
    hide VictimNamed, ScopeKilled, SignalAudited, ParentGone, Rebooted;
    SourcesAre(p, e, pats, deaths);
    FirstWhereFinds(e.journal, line => NamesOomVictim(pats, line, p.pid));
    if p.cgroup.Some? {
      FirstWhereFinds(e.journal, line => InScope(pats.oomdScope(line), p.cgroup.value));
    }
    FirstWhereFinds(e.journal, line => NamedByAudit(line, p.pid, pats));
  }

  /** The first line that kills a scope around the process kills its very cgroup. */
  ghost predicate OwnScopeFirst(p: Presence, e: Evidence, pats: Patterns) {
    p.cgroup.Some? &&
    exists i: nat :: IsFirst(e.journal, i, line => InScope(pats.oomdScope(line), p.cgroup.value))
      && pats.oomdScope(e.journal[i]) == p.cgroup
  }

  /** How far each verdict commits itself. */
  lemma ConfidenceIff(p: Presence, e: Evidence, pats: Patterns, deaths: seq<Record>)
    ensures
      var v := Attribute(p, e, pats, deaths);
      && (v.sender.Oomd? ==>
            (v.confidence.High? <==> !Rebooted(p, e) && (VictimNamed(p, e, pats) || OwnScopeFirst(p, e, pats))))
      && (v.sender.UserSignal? ==> (v.confidence.High? <==> !Rebooted(p, e)))
      && (v.sender.ParentDeath? ==> !v.confidence.High?)
      && (v.sender.Teardown? ==>
            (v.confidence.High? <==> exists i :: 0 <= i < |e.journal| && pats.shutdown(e.journal[i])))
      && (v.confidence.NoConfidence? <==> v.sender.UnknownSender?)
  {
    hide NamesOomVictim, InScope, NamedByAudit, FirstWhere, SignalName, BootChanged, HasPid, IsFirst;
    hide VictimNamed, ScopeKilled, SignalAudited, ParentGone, Rebooted;
    SourcesAre(p, e, pats, deaths);
    FirstWhereFinds(e.journal, line => NamesOomVictim(pats, line, p.pid));
    FirstWhereFinds(e.journal, line => NamedByAudit(line, p.pid, pats));
    FirstWhereFinds(e.journal, pats.shutdown);
    if p.cgroup.Some? {
      ScopeIsFirst(p, e, pats);
    }
  }

  lemma ScopeIsFirst(p: Presence, e: Evidence, pats: Patterns)
    requires p.cgroup.Some?
    ensures
      var scoped := FirstWhere(e.journal, line => InScope(pats.oomdScope(line), p.cgroup.value));
      && (scoped.Some? ==> (OwnScopeFirst(p, e, pats) <==> pats.oomdScope(scoped.value) == p.cgroup))
      && (scoped.None? ==> !OwnScopeFirst(p, e, pats))
  {
    hide InScope, FirstWhere;
    var kills := line => InScope(pats.oomdScope(line), p.cgroup.value);
    var i := FirstWhereIs(e.journal, kills);
    if OwnScopeFirst(p, e, pats) {
      var j: nat :| IsFirst(e.journal, j, line => InScope(pats.oomdScope(line), p.cgroup.value))
        && pats.oomdScope(e.journal[j]) == p.cgroup;
      assert kills(e.journal[j]);
    } else if FirstWhere(e.journal, kills).Some? {
      assert IsFirst(e.journal, i, line => InScope(pats.oomdScope(line), p.cgroup.value));
    }
  }

  /** A kill for memory is a SIGKILL; a cause that is not a signal names none. */
  lemma SignalIs(p: Presence, e: Evidence, pats: Patterns, deaths: seq<Record>)
    ensures
      var v := Attribute(p, e, pats, deaths);
      && (v.sender.Oomd? ==> v.signal == Some("SIGKILL"))
      && (v.sender.ParentDeath? || v.sender.Teardown? || v.sender.UnknownSender? ==> v.signal.None?)
  {
    hide NamesOomVictim, InScope, NamedByAudit, FirstWhere, BootChanged, HasPid, SignalName;
  }

  /** An audited signal is shown with, and named and attributed as, the first audit line about the process has it. */
  lemma AuditIsRead(p: Presence, e: Evidence, pats: Patterns, deaths: seq<Record>) returns (i: nat)
    requires Attribute(p, e, pats, deaths).sender.UserSignal?
    ensures IsFirst(e.journal, i, line => NamedByAudit(line, p.pid, pats))
    ensures
      var v, line := Attribute(p, e, pats, deaths), e.journal[i];
      && v.evidence != [] && v.evidence[0] == Line(line)
      && (v.signal == Some("SIGINT") <==> pats.auditSignal(line) == Some(2))
      && (v.signal == Some("SIGKILL") <==> pats.auditSignal(line) == Some(9))
      && (v.signal == Some("SIGTERM") <==> pats.auditSignal(line) == Some(15))
      && (forall uid: nat :: SentBy(uid) in v.evidence <==> pats.auditUid(line) == Some(uid))
  {
    hide NamesOomVictim, InScope, NamedByAudit, FirstWhere, BootChanged, HasPid, IsFirst, SignalName;
    i := FirstWhereIs(e.journal, line => NamedByAudit(line, p.pid, pats));
    if pats.auditSignal(e.journal[i]).Some? { SignalNames(pats.auditSignal(e.journal[i]).value); }
  }

  lemma SignalNames(n: nat)
    ensures SignalName(n) == Some("SIGINT") <==> n == 2
    ensures SignalName(n) == Some("SIGKILL") <==> n == 9
    ensures SignalName(n) == Some("SIGTERM") <==> n == 15
    ensures SignalName(n).None? <==> n != 2 && n != 9 && n != 15
  {
    assert "SIGINT"[3] != "SIGKILL"[3] && "SIGINT"[3] != "SIGTERM"[3] && "SIGKILL"[3] != "SIGTERM"[3];
  }

  /** What else a verdict shows: a pid that a reboot makes doubtful, and the parent, each with its cause. */
  lemma MarksIff(p: Presence, e: Evidence, pats: Patterns, deaths: seq<Record>)
    ensures
      var v := Attribute(p, e, pats, deaths);
      && (MayBeReusedPid in v.evidence <==> Rebooted(p, e) && (v.sender.Oomd? || v.sender.UserSignal?))
      && (ParentRecorded(p.ppid) in v.evidence <==> v.sender.ParentDeath?)
  {
    hide NamesOomVictim, InScope, NamedByAudit, FirstWhere, BootChanged, HasPid, SignalName;
    hide VictimNamed, ScopeKilled, SignalAudited, ParentGone, Rebooted;
    SourcesAre(p, e, pats, deaths);
  }

  /** A reboot is shown exactly by the verdict that rests on it, and so is that nothing announced it. */
  lemma RebootIsShown(p: Presence, e: Evidence, pats: Patterns, deaths: seq<Record>)
    ensures
      var v := Attribute(p, e, pats, deaths);
      && (BootIdChanged in v.evidence <==> v.sender.Teardown?)
      && (NoShutdownRecord in v.evidence <==>
            v.sender.Teardown? && forall i :: 0 <= i < |e.journal| ==> !pats.shutdown(e.journal[i]))
  {
    hide NamesOomVictim, InScope, NamedByAudit, FirstWhere, BootChanged, HasPid, SignalName;
    FirstWhereFinds(e.journal, pats.shutdown);
  }

  // ---------------------------------------------------------------------------
  // The reaper
  // ---------------------------------------------------------------------------

  /** How anchors are named; the source uses FileName. */
  type Naming = (Kind, string, Pid) -> string

  /** The durable state: the death lane, the anchor files by name, and the verdict lane. */
  datatype Host = Host(lane: seq<Record>, anchors: map<string, Option<Presence>>, verdicts: seq<Verdict>)

  datatype Fate = StillAlive | SelfRecorded | Unrecorded

  function Judge(p: Presence, live: set<Pid>, lane: seq<Record>): Fate {
    if p.pid in live then StillAlive else if HasRecord(lane, p.pid, p.id) then SelfRecorded else Unrecorded
  }

  /** The decoded anchors of these files, in order. */
  function Decoded(anchors: map<string, Option<Presence>>, names: seq<string>): seq<Presence> {
    if names == [] then []
    else
      var f := names[|names| - 1];
      Decoded(anchors, names[..|names| - 1]) + (if f in anchors && anchors[f].Some? then [anchors[f].value] else [])
  }

  /** The files that will not decode, in order. */
  function Corrupt(anchors: map<string, Option<Presence>>, names: seq<string>): seq<string> {
    if names == [] then []
    else
      var f := names[|names| - 1];
      Corrupt(anchors, names[..|names| - 1]) + (if f in anchors && anchors[f].None? then [f] else [])
  }

  function WithFate(ps: seq<Presence>, fate: Fate, live: set<Pid>, lane: seq<Record>): seq<Presence> {
    if ps == [] then []
    else
      var p := ps[|ps| - 1];
      WithFate(ps[..|ps| - 1], fate, live, lane) + (if Judge(p, live, lane) == fate then [p] else [])
  }

  /** One verdict per presence; `attribute` is Attribute on the evidence of this boot. */
  function Verdicts(ps: seq<Presence>, attribute: Presence -> Verdict): seq<Verdict> {
    seq(|ps|, i requires 0 <= i < |ps| => attribute(ps[i]))
  }

  predicate Kept(anchor: Option<Presence>, live: set<Pid>) {
    anchor.None? || anchor.value.pid in live
  }

  /** What one reaping leaves on disk. */
  function Reaped(h: Host, names: seq<string>, live: set<Pid>, attribute: Presence -> Verdict): Host {
    Host(h.lane,
         map f | f in h.anchors && Kept(h.anchors[f], live) :: h.anchors[f],
         h.verdicts + Verdicts(WithFate(Decoded(h.anchors, names), Unrecorded, live, h.lane), attribute))
  }

  /** `names` is a listing of the anchor directory: every file once. */
  ghost predicate Lists(names: seq<string>, anchors: map<string, Option<Presence>>) {
    && (forall f :: f in names <==> f in anchors)
    && (forall i, j :: 0 <= i < j < |names| ==> names[i] != names[j])
  }

  /** Every decoded anchor sits in the file its own fields name. */
  ghost predicate Filed(anchors: map<string, Option<Presence>>, naming: Naming) {
    forall f <- anchors :: anchors[f].Some? ==>
      f == naming(anchors[f].value.kind, anchors[f].value.id, anchors[f].value.pid)
  }

  lemma {:induction false} WithFateCount(ps: seq<Presence>, fate: Fate, live: set<Pid>, lane: seq<Record>, p: Presence)
    ensures multiset(WithFate(ps, fate, live, lane))[p] == if Judge(p, live, lane) == fate then multiset(ps)[p] else 0
  {
    hide Judge;
    if ps != [] {
      var init, last := ps[..|ps| - 1], ps[|ps| - 1];
      WithFateCount(init, fate, live, lane, p);
      assert ps == init + [last];
      MultiplicitySnoc(init, last, p);
      var rest := WithFate(init, fate, live, lane);
      MultiplicitySnoc(rest, last, p);
      assert rest + [] == rest;
    }
  }

  lemma MultiplicitySnoc(ps: seq<Presence>, last: Presence, p: Presence)
    ensures multiset(ps + [last])[p] == multiset(ps)[p] + if last == p then 1 else 0
  {
  }

  /** The three fates split the decoded anchors: nothing is lost, nothing appears twice. */
  lemma FatesSplit(ps: seq<Presence>, live: set<Pid>, lane: seq<Record>)
    ensures multiset(ps) == multiset(WithFate(ps, StillAlive, live, lane))
                          + multiset(WithFate(ps, SelfRecorded, live, lane))
                          + multiset(WithFate(ps, Unrecorded, live, lane))
  {
    forall p ensures multiset(ps)[p] ==
      multiset(WithFate(ps, StillAlive, live, lane))[p] + multiset(WithFate(ps, SelfRecorded, live, lane))[p]
      + multiset(WithFate(ps, Unrecorded, live, lane))[p]
    {
      WithFateCount(ps, StillAlive, live, lane, p);
      WithFateCount(ps, SelfRecorded, live, lane, p);
      WithFateCount(ps, Unrecorded, live, lane, p);
    }
  }

  lemma {:induction false} DecodedHolds(anchors: map<string, Option<Presence>>, names: seq<string>, p: Presence)
    ensures p in Decoded(anchors, names) <==>
      exists i :: 0 <= i < |names| && names[i] in anchors && anchors[names[i]] == Some(p)
  {
    if names != [] {
      var init, f := names[..|names| - 1], names[|names| - 1];
      DecodedHolds(anchors, init, p);
      if p in Decoded(anchors, names) {
        if p in Decoded(anchors, init) {
          var i :| 0 <= i < |init| && init[i] in anchors && anchors[init[i]] == Some(p);
          assert names[i] == init[i];
        } else {
          assert names[|names| - 1] == f;
        }
      }
      if exists i :: 0 <= i < |names| && names[i] in anchors && anchors[names[i]] == Some(p) {
        var i :| 0 <= i < |names| && names[i] in anchors && anchors[names[i]] == Some(p);
        if i < |init| { assert init[i] == names[i]; }
      }
    }
  }

  predicate IsAnchorFile(name: string) {
    |name| >= 5 && name[|name| - 5..] == ".toon"
  }

  /** The suffix test, whatever is in front of the suffix. */
  lemma EndsInToon(front: string, name: string)
    ensures IsAnchorFile(front + ".toon")
    ensures IsAnchorFile(name) ==> name == name[..|name| - 5] + ".toon"
  {
    assert (front + ".toon")[|front|..] == ".toon";
  }

  /** The scan's suffix test passes every anchor the recorder writes. */
  lemma FileNameIsAnchorFile(kind: Kind, id: string, pid: Pid)
    ensures IsAnchorFile(FileName(kind, id, pid))
  {
    hide Sanitized, Decimal, KindName;
    var name := FileName(kind, id, pid);
    assert name[|name| - 5..] == ".toon";
  }

  /** What the scan's suffix test leaves of a directory listing. */
  function AnchorNames(listing: seq<string>): seq<string> {
    if listing == [] then []
    else
      var rest, name := AnchorNames(listing[..|listing| - 1]), listing[|listing| - 1];
      if IsAnchorFile(name) then rest + [name] else rest
  }

  lemma ListingStep(anchors: map<string, Option<Presence>>, listing: seq<string>, k: nat)
    requires k < |listing|
    ensures !IsAnchorFile(listing[k]) ==> AnchorNames(listing[..k + 1]) == AnchorNames(listing[..k])
    ensures IsAnchorFile(listing[k]) ==>
      var now, f := AnchorNames(listing[..k + 1]), listing[k];
      && Decoded(anchors, now) == Decoded(anchors, AnchorNames(listing[..k]))
           + (if f in anchors && anchors[f].Some? then [anchors[f].value] else [])
      && Corrupt(anchors, now) == Corrupt(anchors, AnchorNames(listing[..k]))
           + (if f in anchors && anchors[f].None? then [f] else [])
  {
    assert listing[..k + 1][..k] == listing[..k];
    if IsAnchorFile(listing[k]) {
      var rest, now := AnchorNames(listing[..k]), AnchorNames(listing[..k + 1]);
      assert now == rest + [listing[k]];
      assert now[..|now| - 1] == rest;
    }
  }

  /** `anchors` holds the `.toon` files of the directory, which may hold others. */
  class HostFiles {
    var lane: seq<Record>
    var anchors: map<string, Option<Presence>>
    var verdicts: seq<Verdict>
    const naming: Naming

    ghost function Value(): Host
      reads this
    {
      Host(lane, anchors, verdicts)
    }

    /** readProcessPresences over a directory listing. */
    method ReadPresences(listing: seq<string>) returns (presences: seq<Presence>, skipped: seq<string>)
      ensures presences == Decoded(anchors, AnchorNames(listing)) && skipped == Corrupt(anchors, AnchorNames(listing))
    {
      hide Decoded, Corrupt, AnchorNames, IsAnchorFile;
      presences, skipped := [], [];
      NothingListed(anchors);
      assert listing[..0] == [];
      var k := 0;
      while k < |listing|
        invariant 0 <= k <= |listing|
        invariant presences == Decoded(anchors, AnchorNames(listing[..k]))
        invariant skipped == Corrupt(anchors, AnchorNames(listing[..k]))
      {
        ListingStep(anchors, listing, k);
        if IsAnchorFile(listing[k]) && listing[k] in anchors {
          match anchors[listing[k]] {
            case Some(p) => presences := presences + [p];
            case None => skipped := skipped + [listing[k]];
          }
        }
        k := k + 1;
      }
      assert listing[..k] == listing;
    }

    /** clearProcessPresence: remove the file the anchor's own fields name. */
    method Clear(kind: Kind, id: string, pid: Pid)
      modifies `anchors
      ensures anchors == old(anchors) - {naming(kind, id, pid)}
    {
      anchors := anchors - {naming(kind, id, pid)};
    }

    /**
     runBootDeathReaper: each decoded anchor is alive, self-recorded or
     attributed; the last two are cleared, and each attributed one gets a verdict.
     */
    method Reap(listing: seq<string>, live: set<Pid>, attribute: Presence -> Verdict)
      returns (attributions: seq<Verdict>, alive: seq<Presence>, selfRecorded: seq<Presence>, skipped: seq<string>)
      requires Lists(AnchorNames(listing), anchors) && Filed(anchors, naming)
      modifies this
      ensures Value() == Reaped(old(Value()), AnchorNames(listing), live, attribute)
      ensures verdicts == old(verdicts) + attributions
      ensures skipped == Corrupt(old(anchors), AnchorNames(listing))
      ensures alive == WithFate(Decoded(old(anchors), AnchorNames(listing)), StillAlive, live, lane)
      ensures selfRecorded == WithFate(Decoded(old(anchors), AnchorNames(listing)), SelfRecorded, live, lane)
    {
      hide WithFate, LeftAfter, Verdicts, Reaped, Decoded, Corrupt, Judge, Lists, Filed, AnchorNames;
      ghost var before := anchors;
      var presences;
      presences, skipped := ReadPresences(listing);
      attributions, alive, selfRecorded := [], [], [];
      ghost var lost: seq<Presence> := [];
      NothingReaped(before, live, lane, attribute, naming);
      assert presences[..0] == [];
      var k := 0;
      while k < |presences|
        invariant 0 <= k <= |presences|
        invariant lane == old(lane) && verdicts == old(verdicts)
        invariant alive == WithFate(presences[..k], StillAlive, live, lane)
        invariant selfRecorded == WithFate(presences[..k], SelfRecorded, live, lane)
        invariant lost == WithFate(presences[..k], Unrecorded, live, lane)
        invariant attributions == Verdicts(lost, attribute)
        invariant anchors == LeftAfter(before, presences[..k], live, naming)
      {
        var p := presences[k];
        ReapStep(before, presences, k, live, lane, attribute, naming);
        if p.pid in live {
          alive := alive + [p];
        } else {
          if exists i :: 0 <= i < |lane| && lane[i].pid == p.pid && lane[i].id == p.id {
            selfRecorded := selfRecorded + [p];
          } else {
            attributions := attributions + [attribute(p)];
            lost := lost + [p];
          }
          Clear(p.kind, p.id, p.pid);
        }
        k := k + 1;
      }
      assert presences[..k] == presences;
      LeftIsKept(before, AnchorNames(listing), live, naming);
      ReapedIs(old(Value()), AnchorNames(listing), live, attribute);
      verdicts := verdicts + attributions;
    }
  }

  lemma NothingListed(anchors: map<string, Option<Presence>>)
    ensures Decoded(anchors, AnchorNames([])) == [] && Corrupt(anchors, AnchorNames([])) == []
  {
  }

  /** One more anchor: it joins the list of its fate, and its file goes unless it is alive. */
  lemma ReapStep(
    anchors: map<string, Option<Presence>>, ps: seq<Presence>, k: nat, live: set<Pid>, lane: seq<Record>,
    attribute: Presence -> Verdict, naming: Naming)
    requires k < |ps|
    ensures forall fate ::
      WithFate(ps[..k + 1], fate, live, lane) ==
      WithFate(ps[..k], fate, live, lane) + if Judge(ps[k], live, lane) == fate then [ps[k]] else []
    ensures LeftAfter(anchors, ps[..k + 1], live, naming)
         == var rest := LeftAfter(anchors, ps[..k], live, naming);
            if ps[k].pid in live then rest else rest - {naming(ps[k].kind, ps[k].id, ps[k].pid)}
    ensures Judge(ps[k], live, lane)
         == if ps[k].pid in live then StillAlive
            else if exists i :: 0 <= i < |lane| && lane[i].pid == ps[k].pid && lane[i].id == ps[k].id then SelfRecorded
            else Unrecorded
    ensures forall lost :: Verdicts(lost + [ps[k]], attribute) == Verdicts(lost, attribute) + [attribute(ps[k])]
  {
    assert ps[..k + 1][..k] == ps[..k];
  }

  lemma NothingReaped(
    anchors: map<string, Option<Presence>>, live: set<Pid>, lane: seq<Record>, attribute: Presence -> Verdict,
    naming: Naming)
    ensures forall fate :: WithFate([], fate, live, lane) == []
    ensures LeftAfter(anchors, [], live, naming) == anchors && Verdicts([], attribute) == []
  {
  }

  lemma ReapedIs(h: Host, names: seq<string>, live: set<Pid>, attribute: Presence -> Verdict)
    ensures Reaped(h, names, live, attribute).lane == h.lane
    ensures Reaped(h, names, live, attribute).anchors
         == map f | f in h.anchors && Kept(h.anchors[f], live) :: h.anchors[f]
    ensures Reaped(h, names, live, attribute).verdicts
         == h.verdicts + Verdicts(WithFate(Decoded(h.anchors, names), Unrecorded, live, h.lane), attribute)
  {
  }

  /** The anchor files left after clearing those of these presences that are dead. */
  function LeftAfter(anchors: map<string, Option<Presence>>, ps: seq<Presence>, live: set<Pid>, naming: Naming)
    : map<string, Option<Presence>>
  {
    if ps == [] then anchors
    else
      var p := ps[|ps| - 1];
      var rest := LeftAfter(anchors, ps[..|ps| - 1], live, naming);
      if p.pid in live then rest else rest - {naming(p.kind, p.id, p.pid)}
  }

  lemma {:induction false} LeftAfterHolds(
    anchors: map<string, Option<Presence>>, ps: seq<Presence>, live: set<Pid>, naming: Naming, f: string)
    ensures
      var left := LeftAfter(anchors, ps, live, naming);
      && (f in left <==> f in anchors && !Cleared(ps, f, live, naming))
      && (f in left ==> left[f] == anchors[f])
  {
    if ps != [] {
      var init, p := ps[..|ps| - 1], ps[|ps| - 1];
      LeftAfterHolds(anchors, init, live, naming, f);
      if Cleared(init, f, live, naming) {
        var i :| 0 <= i < |init| && init[i].pid !in live && naming(init[i].kind, init[i].id, init[i].pid) == f;
        assert ps[i] == init[i];
      }
      if Cleared(ps, f, live, naming) {
        var i :| 0 <= i < |ps| && ps[i].pid !in live && naming(ps[i].kind, ps[i].id, ps[i].pid) == f;
        if i < |init| { assert init[i] == ps[i]; }
      }
      if p.pid !in live && naming(p.kind, p.id, p.pid) == f { assert ps[|ps| - 1] == p; }
    }
  }

  /** One of these anchors is dead and names file `f`. */
  ghost predicate Cleared(ps: seq<Presence>, f: string, live: set<Pid>, naming: Naming) {
    exists i :: 0 <= i < |ps| && ps[i].pid !in live && naming(ps[i].kind, ps[i].id, ps[i].pid) == f
  }

  /** The files cleared are exactly the decoded ones whose process is gone. */
  lemma ClearedAll(anchors: map<string, Option<Presence>>, names: seq<string>, live: set<Pid>, naming: Naming)
    requires Lists(names, anchors) && Filed(anchors, naming)
    ensures forall f <- anchors :: Cleared(Decoded(anchors, names), f, live, naming) <==> !Kept(anchors[f], live)
  {
    var ps := Decoded(anchors, names);
    forall f <- anchors ensures Cleared(ps, f, live, naming) <==> !Kept(anchors[f], live) {
      if Cleared(ps, f, live, naming) {
        var i :| 0 <= i < |ps| && ps[i].pid !in live && naming(ps[i].kind, ps[i].id, ps[i].pid) == f;
        DecodedHolds(anchors, names, ps[i]);
      }
      if !Kept(anchors[f], live) {
        var p := anchors[f].value;
        assert f in names;
        var j :| 0 <= j < |names| && names[j] == f;
        DecodedHolds(anchors, names, p);
      }
    }
  }

  lemma LeftIsKept(anchors: map<string, Option<Presence>>, names: seq<string>, live: set<Pid>, naming: Naming)
    requires Lists(names, anchors) && Filed(anchors, naming)
    ensures LeftAfter(anchors, Decoded(anchors, names), live, naming)
         == map f | f in anchors && Kept(anchors[f], live) :: anchors[f]
  {
    ClearedAll(anchors, names, live, naming);
    var left := LeftAfter(anchors, Decoded(anchors, names), live, naming);
    var kept := map f | f in anchors && Kept(anchors[f], live) :: anchors[f];
    forall f ensures (f in left <==> f in kept) && (f in left ==> left[f] == kept[f]) {
      LeftAfterHolds(anchors, Decoded(anchors, names), live, naming, f);
    }
  }
}
