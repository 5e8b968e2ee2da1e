/**
 The conditional REST read against an adversarial server: any number of
 concurrent calls, a server that changes its resources at any time, an ETag
 store that evicts at any time.

 If-None-Match compares validators weakly (section 13.1.2 of RFC 9110), and a
 304 (section 15.4.5 of RFC 9110) carries no body: the client answers with the
 body it holds.
 */
module ConditionalRest {
  import opened Wrappers

  type Key = string
  type Data = string

  /** An entity tag: an opaque text that may be marked weak. */
  datatype Etag = Etag(weak: bool, opaqueTag: string)

  predicate WeakMatch(a: Etag, b: Etag) {
    a.opaqueTag == b.opaqueTag
  }

  /** What the server serves for one key now; some answers carry no validator. */
  datatype Served = Served(etag: Option<Etag>, data: Data)

  /** A stored answer: the validator, the body, and the validator among its headers. */
  datatype Entry = Entry(etag: Etag, data: Data, header: Option<Etag>)

  datatype Reply =
    | Fresh(served: Served)
    | NotModified(header: Option<Etag>)
    | RateLimited
    | Fails

  datatype Answer = Answered(data: Data) | Degraded(data: Data) | Failed

  /** One call: `held` is read once, at the start, and survives every later change of the store. */
  datatype Call =
    | Asking(key: Key, held: Option<Entry>, spent: bool)
    | Waiting(key: Key, held: Option<Entry>)
    | Replied(key: Key, held: Option<Entry>, reply: Reply)
    | Done(key: Key, answer: Answer)

  /**
   `seen` is ghost history: everything the server has ever served per key.
   `during` collects, per call, what the server served at some instant since
   the call started.
   */
  datatype State = State(
    server: map<Key, Served>,
    seen: map<Key, set<Served>>,
    store: map<Key, Entry>,
    calls: map<nat, Call>,
    during: map<nat, set<Data>>)

  datatype Action =
    | Publish(key: Key, served: Served)
    | Evict(key: Key)
    | Begin(id: nat, key: Key, spent: bool)
    | Send(id: nat)
    | Serve(id: nat, full: bool, withHeader: bool, fault: Option<Reply>)
    | Finish(id: nat)

  /** Faithful validators: what weakly matches was served with the same body. */
  ghost predicate Faithful(history: set<Served>) {
    forall a, b :: a in history && b in history && a.etag.Some? && b.etag.Some? && WeakMatch(a.etag.value, b.etag.value)
      ==> a.data == b.data
  }

  ghost predicate Enabled(s: State, a: Action) {
    match a
    case Publish(k, served) => k in s.server && k in s.seen && Faithful(s.seen[k] + {served})
    case Evict(_) => true
    case Begin(id, k, _) => id !in s.calls && k in s.server
    case Send(id) => id in s.calls && s.calls[id].Asking?
    case Serve(id, _, _, fault) =>
      && id in s.calls && s.calls[id].Waiting? && s.calls[id].key in s.server
      && (fault.Some? ==>
            fault.value.RateLimited? || fault.value.Fails? || UnaskedNotModified(s.calls[id], fault.value))
    case Finish(id) => id in s.calls && s.calls[id].Replied?
  }

  /** A 304 to a call that sent no validator. */
  predicate UnaskedNotModified(c: Call, reply: Reply) {
    !c.Done? && c.held.None? && reply.NotModified?
  }

  /**
   When the held validator matches its current one the server answers 304, or 200
   all the same if it does not evaluate the condition; otherwise 200.
   */
  function Respond(served: Served, held: Option<Entry>, full: bool, withHeader: bool): Reply {
    if !full && held.Some? && served.etag.Some? && WeakMatch(held.value.etag, served.etag.value)
    then NotModified(if withHeader then served.etag else None)
    else Fresh(served)
  }

  /** The entry a finished exchange stores, if any. */
  function Stored(held: Option<Entry>, reply: Reply): Option<Entry> {
    match reply
    case Fresh(served) => if served.etag.Some? then Some(Entry(served.etag.value, served.data, served.etag)) else None
    case NotModified(header) =>
      if held.None? then None
      else
        var h := held.value;
        var merged := if header.Some? then header else h.header;
        Some(Entry(if merged.Some? then merged.value else h.etag, h.data, merged))
    case _ => None
  }

  function AnswerOf(held: Option<Entry>, reply: Reply): Answer {
    match reply
    case Fresh(served) => Answered(served.data)
    case NotModified(_) => if held.None? then Failed else Answered(held.value.data)
    case RateLimited => if held.None? then Failed else Degraded(held.value.data)
    case Fails => Failed
  }

  /** The calls still open on `k` have now also seen `d` served. */
  function Witness(s: State, k: Key, d: Data): map<nat, set<Data>> {
    map id | id in s.during ::
      if id in s.calls && !s.calls[id].Done? && s.calls[id].key == k then s.during[id] + {d} else s.during[id]
  }

  function Apply(s: State, a: Action): State
    requires Enabled(s, a)
  {
    match a
    case Publish(k, served) =>
      s.(server := s.server[k := served],
         seen := s.seen[k := s.seen[k] + {served}],
         during := Witness(s, k, served.data))
    case Evict(k) => s.(store := s.store - {k})
    case Begin(id, k, spent) =>
      var held := if k in s.store then Some(s.store[k]) else None;
      s.(calls := s.calls[id := Asking(k, held, spent)], during := s.during[id := {s.server[k].data}])
    case Send(id) =>
      var c := s.calls[id];
      var next :=
        if !c.spent then Waiting(c.key, c.held)
        else Done(c.key, if c.held.Some? then Degraded(c.held.value.data) else Failed);
      s.(calls := s.calls[id := next])
    case Serve(id, full, withHeader, fault) =>
      var c := s.calls[id];
      var reply := if fault.Some? then fault.value else Respond(s.server[c.key], c.held, full, withHeader);
      s.(calls := s.calls[id := Replied(c.key, c.held, reply)])
    case Finish(id) =>
      var c := s.calls[id];
      var entry := Stored(c.held, c.reply);
      s.(store := if entry.Some? then s.store[c.key := entry.value] else s.store,
         calls := s.calls[id := Done(c.key, AnswerOf(c.held, c.reply))])
  }

  /** A run: the states one after the other, and the action between each two. */
  ghost predicate Run(states: seq<State>, acts: seq<Action>) {
    && |states| == |acts| + 1 && Init(states[0])
    && forall i: nat {:trigger Steps(states, acts, i)} :: i < |acts| ==> Steps(states, acts, i)
  }

  ghost predicate Steps(states: seq<State>, acts: seq<Action>, i: nat)
    requires i < |acts| && |states| == |acts| + 1
  {
    Enabled(states[i], acts[i]) && states[i + 1] == Apply(states[i], acts[i])
  }

  /** An empty store, no calls, and a server with one version of each resource. */
  ghost predicate Init(s: State) {
    && s.store == map[] && s.calls == map[] && s.during == map[]
    && s.seen == map k | k in s.server :: {s.server[k]}
  }

  // ---------------------------------------------------------------------------
  // The invariant
  // ---------------------------------------------------------------------------

  /** The pair (validator, body) was really served for this key. */
  ghost predicate WasServed(history: set<Served>, etag: Etag, d: Data) {
    Served(Some(etag), d) in history
  }

  ghost predicate EntryInv(history: set<Served>, e: Entry) {
    && WasServed(history, e.etag, e.data)
    && (e.header.Some? ==> WasServed(history, e.header.value, e.data))
  }

  ghost predicate CallInv(s: State, c: Call, during: set<Data>) {
    && c.key in s.server && c.key in s.seen
    && (!c.Done? ==>
          && s.server[c.key].data in during
          && (c.held.Some? ==> EntryInv(s.seen[c.key], c.held.value)))
    && (c.Replied? ==> ReplyInv(s.seen[c.key], c.held, c.reply, during))
    && (c.Done? && c.answer.Answered? ==> c.answer.data in during)
  }

  ghost predicate ReplyInv(history: set<Served>, held: Option<Entry>, reply: Reply, during: set<Data>) {
    match reply
    case Fresh(served) => served in history && served.data in during
    case NotModified(header) =>
      held.Some? ==>
        && held.value.data in during
        && (header.Some? ==> WasServed(history, header.value, held.value.data))
    case _ => true
  }

  ghost predicate Inv(s: State) {
    && s.seen.Keys == s.server.Keys && s.during.Keys == s.calls.Keys
    && (forall k <- s.server :: s.server[k] in s.seen[k] && Faithful(s.seen[k]))
    && (forall k <- s.store :: k in s.seen && EntryInv(s.seen[k], s.store[k]))
    && (forall id <- s.calls :: CallInv(s, s.calls[id], s.during[id]))
  }

  /** Serving: a weak match with a pair once served means the held body is the current one. */
  lemma RespondIsTrue(s: State, c: Call, during: set<Data>, full: bool, withHeader: bool)
    requires c.Waiting? && CallInv(s, c, during)
    requires s.server[c.key] in s.seen[c.key] && Faithful(s.seen[c.key])
    ensures ReplyInv(s.seen[c.key], c.held, Respond(s.server[c.key], c.held, full, withHeader), during)
  {
    var served := s.server[c.key];
    if c.held.Some? && served.etag.Some? && WeakMatch(c.held.value.etag, served.etag.value) {
      var earlier := Served(Some(c.held.value.etag), c.held.value.data);
      assert earlier in s.seen[c.key] && earlier.data == served.data;
    }
  }

  lemma StoredWasServed(history: set<Served>, held: Option<Entry>, reply: Reply, during: set<Data>)
    requires held.Some? ==> EntryInv(history, held.value)
    requires ReplyInv(history, held, reply, during)
    ensures Stored(held, reply).Some? ==> EntryInv(history, Stored(held, reply).value)
    ensures AnswerOf(held, reply).Answered? ==> AnswerOf(held, reply).data in during
  {
  }

  /** What a call holds was served, and stays in the longer history; a new body joins the call's own. */
  lemma PublishKeepsCall(s: State, k: Key, served: Served, id: nat)
    requires Inv(s) && Enabled(s, Publish(k, served)) && id in s.calls
    ensures var t := Apply(s, Publish(k, served)); CallInv(t, t.calls[id], t.during[id])
  {
    hide Stored, AnswerOf, Respond, Faithful;
    assert CallInv(s, s.calls[id], s.during[id]);
  }

  lemma PublishKeepsInv(s: State, k: Key, served: Served)
    requires Inv(s) && Enabled(s, Publish(k, served))
    ensures Inv(Apply(s, Publish(k, served)))
  {
    hide Stored, AnswerOf, Respond, Faithful, CallInv;
    var t := Apply(s, Publish(k, served));
    forall id <- t.calls ensures CallInv(t, t.calls[id], t.during[id]) {
      PublishKeepsCall(s, k, served, id);
    }
  }

  /** A step of one call leaves the server, and so every other call's invariant, alone. */
  lemma OthersKeepInv(s: State, t: State, id: nat)
    requires Inv(s) && t.server == s.server && t.seen == s.seen
    requires t.calls.Keys == s.calls.Keys + {id} && t.during.Keys == t.calls.Keys
    requires forall j <- s.calls :: j != id ==> t.calls[j] == s.calls[j] && t.during[j] == s.during[j]
    requires forall k <- t.store :: k in s.seen && EntryInv(s.seen[k], t.store[k])
    requires CallInv(t, t.calls[id], t.during[id])
    ensures Inv(t)
  {
    forall j <- t.calls ensures CallInv(t, t.calls[j], t.during[j]) {
      if j != id { assert CallInv(s, s.calls[j], s.during[j]); }
    }
  }

  lemma BeginKeepsInv(s: State, a: Action)
    requires Inv(s) && Enabled(s, a) && a.Begin?
    ensures Inv(Apply(s, a))
  {
    hide Stored, AnswerOf, Respond, Faithful, EntryInv;
    OthersKeepInv(s, Apply(s, a), a.id);
  }

  lemma SendKeepsInv(s: State, id: nat)
    requires Inv(s) && Enabled(s, Send(id))
    ensures Inv(Apply(s, Send(id)))
  {
    assert CallInv(s, s.calls[id], s.during[id]);
    OthersKeepInv(s, Apply(s, Send(id)), id);
  }

  lemma ServeKeepsInv(s: State, a: Action)
    requires Inv(s) && Enabled(s, a) && a.Serve?
    ensures Inv(Apply(s, a))
  {
    hide Stored, AnswerOf, Respond, Faithful, EntryInv;
    assert CallInv(s, s.calls[a.id], s.during[a.id]);
    RespondIsTrue(s, s.calls[a.id], s.during[a.id], a.full, a.withHeader);
    OthersKeepInv(s, Apply(s, a), a.id);
  }

  lemma FinishKeepsInv(s: State, id: nat)
    requires Inv(s) && Enabled(s, Finish(id))
    ensures Inv(Apply(s, Finish(id)))
  {
    hide Stored, AnswerOf, Respond, Faithful, EntryInv;
    var c := s.calls[id];
    assert CallInv(s, c, s.during[id]);
    StoredWasServed(s.seen[c.key], c.held, c.reply, s.during[id]);
    OthersKeepInv(s, Apply(s, Finish(id)), id);
  }

  lemma ApplyKeepsInv(s: State, a: Action)
    requires Inv(s) && Enabled(s, a)
    ensures Inv(Apply(s, a))
  {
    match a {
      case Publish(k, served) => PublishKeepsInv(s, k, served);
      case Evict(_) =>
        forall id <- s.calls ensures CallInv(Apply(s, a), s.calls[id], s.during[id]) {
          assert CallInv(s, s.calls[id], s.during[id]);
        }
      case Finish(id) => FinishKeepsInv(s, id);
      case Begin(_, _, _) => BeginKeepsInv(s, a);
      case Send(id) => SendKeepsInv(s, id);
      case Serve(_, _, _, _) => ServeKeepsInv(s, a);
    }
  }

  lemma InitHasInv(s: State)
    requires Init(s)
    ensures Inv(s)
  {
    assert s.seen.Keys == s.server.Keys;
  }

  // ---------------------------------------------------------------------------
  // Over every run
  // ---------------------------------------------------------------------------

  lemma {:induction false} RunKeepsInv(states: seq<State>, acts: seq<Action>, n: nat)
    requires Run(states, acts) && n < |states|
    ensures Inv(states[n])
  {
    hide Inv, Apply, Enabled, Init;
    if n == 0 {
      InitHasInv(states[0]);
    } else {
      assert Steps(states, acts, n - 1);
      RunKeepsInv(states, acts, n - 1);
      ApplyKeepsInv(states[n - 1], acts[n - 1]);
    }
  }

  /** In state `s` the call is open and the server serves `d` for its key. */
  ghost predicate Serves(s: State, id: nat, d: Data) {
    id in s.calls && !s.calls[id].Done? && s.calls[id].key in s.server && s.server[s.calls[id].key].data == d
  }

  /** A body enters a call's history at the instant the server starts to serve it. */
  lemma DuringGrows(s: State, a: Action, id: nat, d: Data)
    requires Inv(s) && Enabled(s, a)
    requires var t := Apply(s, a); id in t.during && d in t.during[id]
    ensures (id in s.during && d in s.during[id]) || Serves(Apply(s, a), id, d)
  {
    if id in s.calls { assert CallInv(s, s.calls[id], s.during[id]); }
  }

  /** What the ghost history says a call has seen, it has seen at some instant while open. */
  lemma {:induction false} DuringIsWitnessed(states: seq<State>, acts: seq<Action>, n: nat, id: nat, d: Data)
    requires Run(states, acts) && n < |states|
    requires id in states[n].during && d in states[n].during[id]
    ensures exists m :: 0 <= m <= n && Serves(states[m], id, d)
    decreases n
  {
    if n > 0 && !Serves(states[n], id, d) {
      assert Steps(states, acts, n - 1);
      RunKeepsInv(states, acts, n - 1);
      DuringGrows(states[n - 1], acts[n - 1], id, d);
      DuringIsWitnessed(states, acts, n - 1, id, d);
    }
  }

  /** Every stored pair of validator and body is one the server really served for that key. */
  lemma StoredPairsWereServed(states: seq<State>, acts: seq<Action>, n: nat, k: Key)
    requires Run(states, acts) && n < |states| && k in states[n].store
    ensures
      var e := states[n].store[k];
      exists m :: 0 <= m <= n && k in states[m].server && states[m].server[k] == Served(Some(e.etag), e.data)
  {
    RunKeepsInv(states, acts, n);
    SeenIsWitnessed(states, acts, n, k, Served(Some(states[n].store[k].etag), states[n].store[k].data));
  }

  lemma {:induction false} SeenIsWitnessed(states: seq<State>, acts: seq<Action>, n: nat, k: Key, v: Served)
    requires Run(states, acts) && n < |states| && k in states[n].seen && v in states[n].seen[k]
    ensures exists m :: 0 <= m <= n && k in states[m].server && states[m].server[k] == v
    decreases n
  {
    if n > 0 {
      assert Steps(states, acts, n - 1);
      var s := states[n - 1];
      if k in s.seen && v in s.seen[k] {
        SeenIsWitnessed(states, acts, n - 1, k, v);
      } else {
        assert k in states[n].server && states[n].server[k] == v;
      }
    }
  }

  /**
   Conditional reads refine plain reads: an answer that is not marked degraded
   is the body the server served at some instant while the call was open. A 304
   in particular never reaches a caller without the current body.
   */
  lemma AnswersAreCurrent(states: seq<State>, acts: seq<Action>, n: nat, id: nat)
    requires Run(states, acts) && n < |states|
    requires id in states[n].calls && states[n].calls[id].Done? && states[n].calls[id].answer.Answered?
    ensures exists m :: 0 <= m < n && Serves(states[m], id, states[n].calls[id].answer.data)
  {
    RunKeepsInv(states, acts, n);
    var d := states[n].calls[id].answer.data;
    assert CallInv(states[n], states[n].calls[id], states[n].during[id]);
    DuringIsWitnessed(states, acts, n, id, d);
  }

  // ---------------------------------------------------------------------------
  // When a call is answered, and what it leaves in the store
  // ---------------------------------------------------------------------------

  /** The action ends the call. */
  ghost predicate Ends(s: State, a: Action, id: nat) {
    Enabled(s, a) && id in s.calls && !s.calls[id].Done? && Apply(s, a).calls[id].Done?
  }

  /** A call ends when its reply is handled, or unasked when its pool is spent; it began with what the store held. */
  lemma CallsBeginAndEnd(s: State, a: Action, id: nat)
    requires Enabled(s, a)
    ensures id in s.calls && !s.calls[id].Done? ==>
      (Ends(s, a, id) <==> a == Finish(id) || (a == Send(id) && s.calls[id].spent))
    ensures id !in s.calls && id in Apply(s, a).calls ==>
      var c := Apply(s, a).calls[id];
      && a == Begin(id, c.key, c.spent) && c.Asking?
      && (c.held.Some? <==> c.key in s.store) && (c.held.Some? ==> c.held.value == s.store[c.key])
  {
    hide Witness, Stored, AnswerOf, Respond;
  }

  /** What a call has in hand when it ends: a 200, or a 304 and the entry it vouches for. */
  predicate HasBody(c: Call) {
    c.Replied? && (c.reply.Fresh? || (c.reply.NotModified? && c.held.Some?))
  }

  /** Its pool was spent before it asked, or the server refused it for its rate. */
  predicate Limited(c: Call) {
    (c.Asking? && c.spent) || (c.Replied? && c.reply.RateLimited?)
  }

  /**
   A call that ends is answered exactly when it has a body in hand, degraded to the
   held body exactly when it was limited with an entry held, and failed otherwise.
   */
  lemma EndsIff(s: State, a: Action, id: nat)
    requires Ends(s, a, id)
    ensures
      var c, answer := s.calls[id], Apply(s, a).calls[id].answer;
      && (answer.Answered? <==> HasBody(c))
      && (answer.Degraded? <==> Limited(c) && c.held.Some?)
      && (answer.Answered? ==> answer.data == if c.reply.Fresh? then c.reply.served.data else c.held.value.data)
      && (answer.Degraded? ==> answer.data == c.held.value.data)
  {
  }

  /** Some action before `n` answered the call's request, and not by a fault. */
  ghost predicate ServedBefore(acts: seq<Action>, n: nat, id: nat)
    requires n <= |acts|
  {
    exists m :: 0 <= m < n && Answers(acts[m], id)
  }

  predicate Answers(a: Action, id: nat) {
    a.Serve? && a.id == id && a.fault.None?
  }

  /** How far the call is tells whether its request was answered. */
  ghost predicate TellsServed(s: State, id: nat, served: bool) {
    if id !in s.calls then !served
    else
      match s.calls[id]
      case Asking(_, _, _) => !served
      case Waiting(_, _) => !served
      case Replied(_, _, _) => HasBody(s.calls[id]) <==> served
      case Done(_, answer) => answer.Answered? <==> served
  }

  lemma TellsStep(s: State, a: Action, id: nat, served: bool)
    requires Enabled(s, a) && TellsServed(s, id, served)
    ensures TellsServed(Apply(s, a), id, served || Answers(a, id))
  {
    hide Witness, Stored;
  }

  lemma {:induction false} RunTellsServed(states: seq<State>, acts: seq<Action>, n: nat, id: nat)
    requires Run(states, acts) && n < |states|
    ensures TellsServed(states[n], id, ServedBefore(acts, n, id))
  {
    hide Apply, Enabled, TellsServed, Answers;
    if n == 0 {
      NothingServed(states[0], id);
    } else {
      assert Steps(states, acts, n - 1);
      RunTellsServed(states, acts, n - 1, id);
      TellsStep(states[n - 1], acts[n - 1], id, ServedBefore(acts, n - 1, id));
      assert ServedBefore(acts, n, id) <==> ServedBefore(acts, n - 1, id) || Answers(acts[n - 1], id);
    }
  }

  lemma NothingServed(s: State, id: nat)
    requires Init(s)
    ensures TellsServed(s, id, false)
  {
  }

  /** Over every run a finished call is answered if and only if the server answered its request without a fault. */
  lemma AnsweredIffServed(states: seq<State>, acts: seq<Action>, n: nat, id: nat)
    requires Run(states, acts) && n < |states| && id in states[n].calls && states[n].calls[id].Done?
    ensures states[n].calls[id].answer.Answered? <==> ServedBefore(acts, n, id)
  {
    hide Run, ServedBefore;
    RunTellsServed(states, acts, n, id);
  }

  /** The call has the body `d` in hand, or has answered it. */
  ghost predicate Carries(s: State, id: nat, d: Data) {
    id in s.calls &&
    match s.calls[id]
    case Replied(_, held, reply) =>
      HasBody(s.calls[id]) && d == if reply.Fresh? then reply.served.data else held.value.data
    case Done(_, answer) => answer == Answer.Answered(d)
    case _ => false
  }

  lemma ServeCarries(s: State, a: Action)
    requires Inv(s) && Enabled(s, a) && a.Serve? && a.fault.None?
    ensures Carries(Apply(s, a), a.id, s.server[s.calls[a.id].key].data)
  {
    var c := s.calls[a.id];
    assert CallInv(s, c, s.during[a.id]);
    var served := s.server[c.key];
    if c.held.Some? && served.etag.Some? && WeakMatch(c.held.value.etag, served.etag.value) {
      var earlier := Served(Some(c.held.value.etag), c.held.value.data);
      assert earlier in s.seen[c.key];
    }
  }

  lemma CarriesStep(s: State, a: Action, id: nat, d: Data)
    requires Enabled(s, a) && Carries(s, id, d)
    ensures Carries(Apply(s, a), id, d)
  {
    hide Witness, Stored;
  }

  /** What a call answers is the body the server had at the instant it answered the call's request. */
  lemma {:induction false} AnswersTheServedBody(states: seq<State>, acts: seq<Action>, m: nat, n: nat)
    requires Run(states, acts) && m < n < |states| && acts[m].Serve? && acts[m].fault.None?
    ensures acts[m].id in states[m].calls && states[m].calls[acts[m].id].key in states[m].server
    ensures Carries(states[n], acts[m].id, states[m].server[states[m].calls[acts[m].id].key].data)
    decreases n
  {
    hide Apply, Inv, Carries;
    assert Steps(states, acts, n - 1);
    if n == m + 1 {
      RunKeepsInv(states, acts, m);
      ServeCarries(states[m], acts[m]);
    } else {
      AnswersTheServedBody(states, acts, m, n - 1);
      CarriesStep(states[n - 1], acts[n - 1], acts[m].id, states[m].server[states[m].calls[acts[m].id].key].data);
    }
  }

  /** The validator that goes with a body confirmed by a 304: the reply's, or the held headers', or the held one. */
  function Confirmed(held: Entry, header: Option<Etag>): Etag {
    if header.Some? then header.value else if held.header.Some? then held.header.value else held.etag
  }

  /**
   What a finished call leaves in the store: a 200 with a validator replaces the entry,
   a confirmed entry stays with its body under the latest validator, and nothing else
   changes any entry.
   */
  lemma FinishStores(s: State, id: nat)
    requires Enabled(s, Finish(id))
    ensures
      var c, t := s.calls[id], Apply(s, Finish(id));
      && (c.reply.Fresh? && c.reply.served.etag.Some? ==>
            t.store == s.store[c.key := Entry(c.reply.served.etag.value, c.reply.served.data, c.reply.served.etag)])
      && (c.reply.NotModified? && c.held.Some? ==>
            && c.key in t.store && t.store[c.key].data == c.held.value.data
            && t.store[c.key].etag == Confirmed(c.held.value, c.reply.header)
            && t.store == s.store[c.key := t.store[c.key]])
      && (!HasBody(c) || (c.reply.Fresh? && c.reply.served.etag.None?) ==> t.store == s.store)
  {
  }

  /**
   The exchange: the server confirms the held entry exactly when it honours the
   condition and the two tags agree, weak or not, and otherwise sends what it serves.
   */
  lemma NotModifiedIff(s: State, a: Action)
    requires Enabled(s, a) && a.Serve? && a.fault.None?
    ensures
      var c, served := s.calls[a.id], s.server[s.calls[a.id].key];
      var reply := Apply(s, a).calls[a.id].reply;
      && (reply.NotModified? <==>
            && !a.full && c.held.Some? && served.etag.Some?
            && c.held.value.etag.opaqueTag == served.etag.value.opaqueTag)
      && (reply.NotModified? ==> reply.header == if a.withHeader then served.etag else None)
      && (!reply.NotModified? ==> reply == Fresh(served))
  {
    hide Witness;
  }

  /** Only the end of a call and an eviction change the store; an eviction takes out that key. */
  lemma OtherwiseStoreStays(s: State, a: Action)
    requires Enabled(s, a) && !a.Finish?
    ensures Apply(s, a).store == if a.Evict? then map k | k in s.store && k != a.key :: s.store[k] else s.store
  {
    hide Witness;
  }
}
