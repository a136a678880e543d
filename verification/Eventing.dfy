/** Publisher and subscriber joined by a channel that may lose but neither reorders nor repeats.

    For each SID the channel is the list of all NOTIFYs ever attempted and a cursor: the ones
    before it have been delivered or lost, the ones from it on are still under way. */
module Eventing {
  import opened Wrappers
  import opened Subscription
  import Source = EventSource
  import Sink = EventSink

  datatype Net = Net(
    pub: Source.State,
    wire: map<Sid, seq<Attempt>>,
    cursor: map<Sid, nat>,
    proxy: Sink.State,
    hasUrl: bool)

  datatype Action =
    | Publish(event: Source.Event)
    | Lose(sid: Sid)
    | Deliver(sid: Sid)
    | Idle
    | Answered(reply: Sink.SubscribeReply, jitter: int)
    | RenewalDue
    | Toggle(subscribed: bool)

  function Initial(hasUrl: bool): Net {
    Net(Source.INITIAL, map[], map[], Sink.INITIAL, hasUrl)
  }

  function OnWire(pub: Source.State, wire: map<Sid, seq<Attempt>>): map<Sid, seq<Attempt>> {
    map sid | sid in pub.used ::
      if sid in pub.subs then pub.subs[sid].attempts else if sid in wire then wire[sid] else []
  }

  predicate UnderWay(s: Net, sid: Sid) {
    sid in s.wire && sid in s.cursor && s.cursor[sid] < |s.wire[sid]|
  }

  function Step(s: Net, a: Action): Net
    requires s.pub.Valid()
  {
    match a
    case Publish(event) =>
      var pub := Source.Step(s.pub, event);
      s.(pub := pub,
         wire := OnWire(pub, s.wire),
         cursor := map sid | sid in pub.used :: if sid in s.cursor then s.cursor[sid] else 0)
    case Lose(sid) =>
      if !UnderWay(s, sid) then s else s.(cursor := s.cursor[sid := s.cursor[sid] + 1])
    case Deliver(sid) =>
      if !UnderWay(s, sid) then s
      else s.(cursor := s.cursor[sid := s.cursor[sid] + 1],
              proxy := Sink.Incoming(s.proxy, Sink.Message(sid, s.wire[sid][s.cursor[sid]])))
    case Idle => s.(proxy := Sink.Emit(s.proxy, s.hasUrl))
    case Answered(reply, jitter) => s.(proxy := Sink.GotResponse(s.proxy, reply, jitter))
    case RenewalDue => s.(proxy := Sink.Expire(s.proxy))
    case Toggle(subscribed) => s.(proxy := Sink.SetSubscribed(s.proxy, subscribed, s.hasUrl))
  }

  /** SEQ has not come round yet. */
  predicate BeforeWrap(wire: map<Sid, seq<Attempt>>) {
    forall sid :: sid in wire ==> |wire[sid]| <= MAX_INT32 + 1
  }

  /** The response gives the proxy a SID it does not hold. */
  predicate Installs(p: Sink.State, reply: Sink.SubscribeReply) {
    p.subscribed && reply.HttpOk? && reply.sid.Some? && reply.sid != p.sid
  }

  /** What a step must respect: generated SIDs are new UUIDs, SEQ has not wrapped, a SID is
      installed only over a counter of zero, and the idle handler drains only its own SID's queue. */
  predicate Clean(s: Net, a: Action)
    requires s.pub.Valid()
  {
    match a
    case Publish(event) =>
      && Source.Fresh(s.pub, event)
      && (event.Subscribe? ==> Sink.ValidSid(event.sid))
      && BeforeWrap(Step(s, a).wire)
    case Idle =>
      (s.proxy.sid.None? && s.proxy.subscribed) ||
      forall q :: q in s.proxy.pending ==> Some(q.sid) == s.proxy.sid
    case Answered(reply, _) => Installs(s.proxy, reply) ==> s.proxy.count == 0
    case _ => true
  }

  lemma StepValid(s: Net, a: Action)
    requires s.pub.Valid()
    ensures Step(s, a).pub.Valid()
  {
    if a.Publish? {
      Source.StepValid(s.pub, a.event);
    }
  }

  ghost predicate CleanRun(s: Net, actions: seq<Action>)
    requires s.pub.Valid()
    decreases actions
  {
    actions == [] ||
    (Clean(s, actions[0]) && (StepValid(s, actions[0]); CleanRun(Step(s, actions[0]), actions[1..])))
  }

  ghost function Run(s: Net, actions: seq<Action>): (r: Net)
    requires s.pub.Valid()
    ensures r.pub.Valid()
    decreases actions
  {
    if actions == [] then s else StepValid(s, actions[0]); Run(Step(s, actions[0]), actions[1..])
  }

  lemma {:induction false} RunSnoc(s: Net, actions: seq<Action>, a: Action)
    requires s.pub.Valid()
    ensures Run(s, actions + [a]) == Step(Run(s, actions), a)
    decreases actions
  {
    if actions == [] {
      assert actions + [a] == [a] && [a][1..] == [];
      StepValid(s, a);
    } else {
      assert (actions + [a])[1..] == actions[1..] + [a];
      StepValid(s, actions[0]);
      RunSnoc(Step(s, actions[0]), actions[1..], a);
    }
  }

  /** The send attempts of a subscription as the subscriber would see them. */
  function Sent(sid: Sid, attempts: seq<Attempt>): seq<Sink.Queued> {
    seq(|attempts|, i requires 0 <= i < |attempts| => Sink.Queued(sid, attempts[i].seqNo, attempts[i].body))
  }

  // ---------------------------------------------------------------- the invariant

  predicate WireInv(s: Net) {
    && s.wire.Keys == s.cursor.Keys == s.pub.used
    && (forall sid :: sid in s.pub.subs ==> sid in s.wire && s.wire[sid] == s.pub.subs[sid].attempts)
    && (forall sid :: sid in s.wire ==> Sink.ValidSid(sid) && s.cursor[sid] <= |s.wire[sid]| <= MAX_INT32 + 1)
    && (forall sid :: sid in s.wire ==> Numbered(s.wire[sid]))
  }

  predicate Numbered(attempts: seq<Attempt>) {
    forall n :: 0 <= n < |attempts| ==> attempts[n].seqNo == n
  }

  predicate HandedInv(wire: map<Sid, seq<Attempt>>, cursor: map<Sid, nat>, handed: seq<Sink.Queued>, sid: Sid)
    requires wire.Keys == cursor.Keys
  {
    var h := Sink.OfSid(handed, sid);
    if sid in wire then |h| <= cursor[sid] && h <= Sent(sid, wire[sid]) else h == []
  }

  /** A queued notification is an attempt past everything handed up under its SID. */
  predicate QueuedInv(wire: map<Sid, seq<Attempt>>, cursor: map<Sid, nat>, handed: seq<Sink.Queued>, q: Sink.Queued)
    requires wire.Keys == cursor.Keys
  {
    && q.sid in wire
    && |Sink.OfSid(handed, q.sid)| <= q.seqNo < cursor[q.sid] <= |wire[q.sid]|
    && q == Sent(q.sid, wire[q.sid])[q.seqNo]
  }

  predicate Ascending(pending: seq<Sink.Queued>) {
    forall i, j :: 0 <= i < j < |pending| && pending[i].sid == pending[j].sid ==> pending[i].seqNo < pending[j].seqNo
  }

  predicate CounterInv(p: Sink.State) {
    p.sid.Some? ==> p.count <= |Sink.OfSid(p.handed, p.sid.value)|
  }

  ghost predicate Inv(s: Net) {
    && s.pub.Valid() && Source.Inv(s.pub)
    && WireInv(s)
    && (forall sid :: HandedInv(s.wire, s.cursor, s.proxy.handed, sid))
    && (forall q :: q in s.proxy.pending ==> QueuedInv(s.wire, s.cursor, s.proxy.handed, q))
    && Ascending(s.proxy.pending)
    && CounterInv(s.proxy)
  }

  // ---------------------------------------------------------------- publishing

  /** A publisher event only adds attempts at the end of what a subscription has sent. */
  lemma AttemptsGrow(s: Source.State, e: Source.Event, sid: Sid)
    requires s.Valid() && Source.Fresh(s, e) && sid in s.subs && sid in Source.Step(s, e).subs
    requires sid in s.used
    ensures s.subs[sid].attempts <= Source.Step(s, e).subs[sid].attempts
  {
    if e.Response? && e.sid == sid && s.subs[sid].HasPending(e.id) {
      RespondResends(s.subs[sid], e.id, e.status);
    }
  }

  lemma UsedGrows(s: Source.State, e: Source.Event)
    requires s.Valid()
    ensures s.used <= Source.Step(s, e).used
    ensures forall sid :: sid in Source.Step(s, e).used && sid !in s.used ==> e.Subscribe? && e.sid == sid
    ensures forall sid :: sid in Source.Step(s, e).subs && sid !in s.subs ==> e.Subscribe? && e.sid == sid
  {
    match e
    case Introspected(_, _) =>
    case Response(_, _, _) =>
    case NotifyValue(_) =>
    case ThawNotify =>
    case _ =>
  }

  lemma PublishExtends(s: Net, a: Action)
    requires Inv(s) && a.Publish? && Clean(s, a)
    ensures var t := Step(s, a);
      && s.wire.Keys <= t.wire.Keys && t.wire.Keys == t.cursor.Keys == t.pub.used
      && (forall sid :: sid in s.wire ==> s.wire[sid] <= t.wire[sid] && t.cursor[sid] == s.cursor[sid])
      && (forall sid :: sid in t.wire && sid !in s.wire ==> Sink.ValidSid(sid) && t.cursor[sid] == 0)
  {
    var t := Step(s, a);
    UsedGrows(s.pub, a.event);
    forall sid | sid in s.wire ensures s.wire[sid] <= t.wire[sid] {
      if sid in t.pub.subs {
        assert sid in s.pub.subs;
        AttemptsGrow(s.pub, a.event, sid);
      }
    }
  }

  lemma PublishNumbered(s: Net, a: Action, sid: Sid)
    requires Inv(s) && a.Publish? && Clean(s, a)
    requires sid in Step(s, a).wire
    ensures Numbered(Step(s, a).wire[sid])
  {
    var t := Step(s, a);
    if sid in t.pub.subs {
      Source.StepInv(s.pub, a.event);
      assert Source.EntryInv(t.pub.subs[sid], t.pub.flushed);
      var attempts := t.pub.subs[sid].attempts;
      assert |attempts| <= MAX_INT32 + 1;
      forall n | 0 <= n < |attempts| ensures attempts[n].seqNo == n {
        SeqAtSteps(n);
      }
    } else {
      UsedGrows(s.pub, a.event);
      assert sid in s.wire ==> t.wire[sid] == s.wire[sid];
    }
  }

  lemma PublishKeepsInv(s: Net, a: Action)
    requires Inv(s) && a.Publish? && Clean(s, a)
    ensures Inv(Step(s, a))
  {
    var t := Step(s, a);
    StepValid(s, a);
    Source.StepInv(s.pub, a.event);
    PublishExtends(s, a);
    assert WireInv(t) by {
      forall sid | sid in t.wire ensures Numbered(t.wire[sid]) {
        PublishNumbered(s, a, sid);
      }
      forall sid | sid in t.pub.subs ensures sid in t.wire {
        assert Source.EntryInv(t.pub.subs[sid], t.pub.flushed);
      }
    }
    forall sid ensures HandedInv(t.wire, t.cursor, t.proxy.handed, sid) {
      assert HandedInv(s.wire, s.cursor, s.proxy.handed, sid);
    }
    forall q | q in t.proxy.pending ensures QueuedInv(t.wire, t.cursor, t.proxy.handed, q) {
      assert QueuedInv(s.wire, s.cursor, s.proxy.handed, q);
    }
  }

  // ---------------------------------------------------------------- the channel

  lemma LoseKeepsInv(s: Net, sid: Sid)
    requires Inv(s) && UnderWay(s, sid)
    ensures Inv(s.(cursor := s.cursor[sid := s.cursor[sid] + 1]))
  {
    var t := s.(cursor := s.cursor[sid := s.cursor[sid] + 1]);
    assert t.cursor.Keys == s.cursor.Keys;
    forall x ensures HandedInv(t.wire, t.cursor, t.proxy.handed, x) {
      assert HandedInv(s.wire, s.cursor, s.proxy.handed, x);
    }
    forall q | q in t.proxy.pending ensures QueuedInv(t.wire, t.cursor, t.proxy.handed, q) {
      assert QueuedInv(s.wire, s.cursor, s.proxy.handed, q);
    }
  }

  /** Queueing the attempt at the cursor keeps the queue ascending per SID. */
  lemma QueueAscending(s: Net, sid: Sid, q: Sink.Queued)
    requires Inv(s) && UnderWay(s, sid)
    requires q.sid == sid && q.seqNo == s.cursor[sid]
    ensures Ascending(s.proxy.pending + [q])
  {
    forall i | 0 <= i < |s.proxy.pending| && s.proxy.pending[i].sid == sid
      ensures s.proxy.pending[i].seqNo < q.seqNo
    {
      assert QueuedInv(s.wire, s.cursor, s.proxy.handed, s.proxy.pending[i]);
    }
  }

  lemma DeliverKeepsInv(s: Net, sid: Sid)
    requires Inv(s) && UnderWay(s, sid)
    ensures Inv(Step(s, Deliver(sid)))
  {
    LoseKeepsInv(s, sid);
    var moved := s.(cursor := s.cursor[sid := s.cursor[sid] + 1]);
    var t := Step(s, Deliver(sid));
    var attempt := s.wire[sid][s.cursor[sid]];
    assert attempt.seqNo == s.cursor[sid];
    if s.proxy.listening && s.proxy.sid.Some? {
      Sink.MessageIsUnderstood(sid, attempt);
      var q := Sink.Queued(sid, attempt.seqNo, attempt.body);
      assert t.proxy == s.proxy.(pending := s.proxy.pending + [q], idle := true);
      QueueAscending(s, sid, q);
      assert HandedInv(s.wire, s.cursor, s.proxy.handed, sid);
      assert QueuedInv(t.wire, t.cursor, t.proxy.handed, q);
      forall p | p in t.proxy.pending ensures QueuedInv(t.wire, t.cursor, t.proxy.handed, p) {
        assert p in s.proxy.pending ==> QueuedInv(moved.wire, moved.cursor, moved.proxy.handed, p);
      }
    } else {
      assert t == moved;
    }
  }

  // ---------------------------------------------------------------- the idle handler

  lemma {:induction false} OwnOnly(a: seq<Sink.Queued>, own: Sid, sid: Sid)
    requires forall q :: q in a ==> q.sid == own
    ensures Sink.OfSid(a, sid) == if sid == own then a else []
    decreases |a|
  {
    if a != [] {
      assert a[|a| - 1] in a;
      OwnOnly(a[..|a| - 1], own, sid);
      assert a == a[..|a| - 1] + [a[|a| - 1]];
    }
  }

  /** `q` is one of the attempts of `sid` from h up to the limit. */
  predicate Between(q: Sink.Queued, sid: Sid, h: nat, limit: nat, sent: seq<Sink.Queued>) {
    q.sid == sid && h <= q.seqNo < limit <= |sent| && q == sent[q.seqNo]
  }

  lemma RestIsLater(pending: seq<Sink.Queued>, sid: Sid, h: nat, limit: nat, sent: seq<Sink.Queued>)
    requires pending != [] && Ascending(pending)
    requires forall q :: q in pending ==> Between(q, sid, h, limit, sent)
    ensures Between(pending[0], sid, h, limit, sent)
    ensures Ascending(pending[1..])
    ensures forall q :: q in pending[1..] ==> Between(q, sid, pending[0].seqNo + 1, limit, sent)
  {
    assert pending[0] in pending;
    forall q | q in pending[1..] ensures Between(q, sid, pending[0].seqNo + 1, limit, sent) {
      var i :| 0 <= i < |pending[1..]| && pending[1..][i] == q;
      assert pending[i + 1] == q && q in pending;
    }
  }

  /** The heart of gap detection: with the counter at most the number already handed up, draining
      ascending notifications past that number hands up just the next ones without a hole. */
  lemma {:induction false} DrainPrefix(
      pending: seq<Sink.Queued>, count: nat, sid: Sid, h: nat, sent: seq<Sink.Queued>, limit: nat)
    requires count <= h <= limit <= |sent| <= MAX_INT32 + 1
    requires Ascending(pending)
    requires forall q :: q in pending ==> Between(q, sid, h, limit, sent)
    ensures var d := Sink.Drain(pending, count, Some(sid));
      && h + |d.handed| <= limit
      && d.handed == sent[h..h + |d.handed|]
      && d.count <= h + |d.handed|
    decreases |pending|
  {
    if pending != [] {
      RestIsLater(pending, sid, h, limit, sent);
      if pending[0].seqNo <= count {
        DrainPrefix(pending[1..], count + 1, sid, h + 1, sent, limit);
        SliceCons(sent, h, |Sink.Drain(pending[1..], count + 1, Some(sid)).handed|);
      }
    }
  }

  /** What is queued under the current SID lies between what was handed up and the cursor. */
  lemma QueueIsBetween(s: Net, sid: Sid)
    requires Inv(s) && Clean(s, Idle) && s.proxy.sid == Some(sid) && sid in s.wire
    ensures var h, sent := |Sink.OfSid(s.proxy.handed, sid)|, Sent(sid, s.wire[sid]);
      && h <= s.cursor[sid] <= |sent| <= MAX_INT32 + 1 && s.proxy.count <= h
      && forall q :: q in s.proxy.pending ==> Between(q, sid, h, s.cursor[sid], sent)
  {
    assert HandedInv(s.wire, s.cursor, s.proxy.handed, sid);
    forall q | q in s.proxy.pending
      ensures Between(q, sid, |Sink.OfSid(s.proxy.handed, sid)|, s.cursor[sid], Sent(sid, s.wire[sid]))
    {
      assert QueuedInv(s.wire, s.cursor, s.proxy.handed, q);
    }
  }

  lemma IdleHandsUpNext(s: Net, sid: Sid)
    requires Inv(s) && Clean(s, Idle) && s.proxy.sid == Some(sid) && sid in s.wire
    ensures var d := Sink.Drain(s.proxy.pending, s.proxy.count, Some(sid));
      var h := |Sink.OfSid(s.proxy.handed, sid)|;
      && (forall q :: q in d.handed ==> q.sid == sid)
      && h + |d.handed| <= s.cursor[sid] <= |s.wire[sid]|
      && d.handed == Sent(sid, s.wire[sid])[h..h + |d.handed|]
      && d.count <= h + |d.handed|
  {
    var p, h := s.proxy, |Sink.OfSid(s.proxy.handed, sid)|;
    QueueIsBetween(s, sid);
    DrainPrefix(p.pending, p.count, sid, h, Sent(sid, s.wire[sid]), s.cursor[sid]);
    SentUnder(sid, s.wire[sid], h, h + |Sink.Drain(p.pending, p.count, Some(sid)).handed|);
  }

  lemma SentUnder(sid: Sid, attempts: seq<Attempt>, lo: nat, hi: nat)
    requires lo <= hi <= |attempts|
    ensures forall q :: q in Sent(sid, attempts)[lo..hi] ==> q.sid == sid
  {
  }

  /** Handing up notifications of `sid` lengthens its own history and no other. */
  lemma HandedMore(handed: seq<Sink.Queued>, more: seq<Sink.Queued>, sid: Sid, x: Sid)
    requires forall q :: q in more ==> q.sid == sid
    ensures Sink.OfSid(handed + more, x) == if x == sid then Sink.OfSid(handed, x) + more else Sink.OfSid(handed, x)
  {
    Sink.OfSidAppend(handed, more, x);
    OwnOnly(more, sid, x);
  }

  /** Handing up the next attempts of `sid` keeps its prefix. */
  lemma OwnPrefixGrows(handed: seq<Sink.Queued>, more: seq<Sink.Queued>, sid: Sid, sent: seq<Sink.Queued>)
    requires forall q :: q in more ==> q.sid == sid
    requires var h := Sink.OfSid(handed, sid);
      h <= sent && |h| + |more| <= |sent| && more == sent[|h|..|h| + |more|]
    ensures var h := Sink.OfSid(handed + more, sid);
      h <= sent && |h| == |Sink.OfSid(handed, sid)| + |more|
  {
    HandedMore(handed, more, sid, sid);
    PrefixGrows(Sink.OfSid(handed, sid), more, sent);
  }

  /** It keeps every SID's prefix. */
  lemma HandedGrows(
      wire: map<Sid, seq<Attempt>>, cursor: map<Sid, nat>, handed: seq<Sink.Queued>, more: seq<Sink.Queued>,
      sid: Sid, x: Sid)
    requires wire.Keys == cursor.Keys && sid in wire
    requires HandedInv(wire, cursor, handed, sid) && HandedInv(wire, cursor, handed, x)
    requires forall q :: q in more ==> q.sid == sid
    requires var h := |Sink.OfSid(handed, sid)|;
      h + |more| <= cursor[sid] <= |wire[sid]| && more == Sent(sid, wire[sid])[h..h + |more|]
    ensures HandedInv(wire, cursor, handed + more, x)
    ensures |Sink.OfSid(handed + more, sid)| == |Sink.OfSid(handed, sid)| + |more|
  {
    OwnPrefixGrows(handed, more, sid, Sent(sid, wire[sid]));
    if x != sid {
      HandedMore(handed, more, sid, x);
    }
  }

  lemma IdleHanded(s: Net, sid: Sid, x: Sid)
    requires Inv(s) && Clean(s, Idle) && s.proxy.sid == Some(sid) && sid in s.wire
    ensures var d := Sink.Drain(s.proxy.pending, s.proxy.count, Some(sid));
      && HandedInv(s.wire, s.cursor, s.proxy.handed + d.handed, x)
      && |Sink.OfSid(s.proxy.handed + d.handed, sid)| == |Sink.OfSid(s.proxy.handed, sid)| + |d.handed|
  {
    var d := Sink.Drain(s.proxy.pending, s.proxy.count, Some(sid));
    IdleHandsUpNext(s, sid);
    HandedGrows(s.wire, s.cursor, s.proxy.handed, d.handed, sid, x);
  }

  /** Only the proxy changes, keeping what was handed up; its queue is unchanged or emptied. */
  lemma ProxyKeepsInv(s: Net, p: Sink.State)
    requires Inv(s) && p.handed == s.proxy.handed && (p.pending == s.proxy.pending || p.pending == [])
    requires CounterInv(p)
    ensures Inv(s.(proxy := p))
  {
    var t := s.(proxy := p);
    forall sid ensures HandedInv(t.wire, t.cursor, t.proxy.handed, sid) {
      assert HandedInv(s.wire, s.cursor, s.proxy.handed, sid);
    }
    forall q | q in p.pending ensures QueuedInv(t.wire, t.cursor, t.proxy.handed, q) {
      assert QueuedInv(s.wire, s.cursor, s.proxy.handed, q);
    }
  }

  lemma IdleEmpty(s: Net)
    requires Inv(s) && s.proxy.pending == []
    ensures Inv(Step(s, Idle))
  {
    assert Sink.Drain(s.proxy.pending, s.proxy.count, s.proxy.sid) == Sink.Drained([], s.proxy.count, false);
    assert s.proxy.handed + [] == s.proxy.handed;
    ProxyKeepsInv(s, Step(s, Idle).proxy);
  }

  lemma IdleDrains(s: Net, sid: Sid)
    requires Inv(s) && Clean(s, Idle) && s.proxy.sid == Some(sid) && sid in s.wire
    ensures Inv(Step(s, Idle))
  {
    var t := Step(s, Idle);
    IdleHandsUpNext(s, sid);
    IdleHanded(s, sid, sid);
    forall x ensures HandedInv(t.wire, t.cursor, t.proxy.handed, x) {
      IdleHanded(s, sid, x);
    }
    assert WireInv(t) && t.proxy.pending == [];
  }

  lemma IdleKeepsInv(s: Net)
    requires Inv(s) && Clean(s, Idle) && !(s.proxy.sid.None? && s.proxy.subscribed)
    ensures Inv(Step(s, Idle))
  {
    if s.proxy.pending == [] {
      IdleEmpty(s);
    } else {
      var first := s.proxy.pending[0];
      assert first in s.proxy.pending;
      assert QueuedInv(s.wire, s.cursor, s.proxy.handed, first);
      IdleDrains(s, first.sid);
    }
  }

  // ---------------------------------------------------------------- every run

  lemma AnswerKeepsCounter(p: Sink.State, reply: Sink.SubscribeReply, jitter: int)
    requires CounterInv(p) && (Installs(p, reply) ==> p.count == 0)
    ensures var t := Sink.GotResponse(p, reply, jitter);
      CounterInv(t) && t.handed == p.handed && t.pending == p.pending
  {
  }

  lemma ToggleKeepsCounter(p: Sink.State, subscribed: bool, hasUrl: bool)
    requires CounterInv(p)
    ensures var t := Sink.SetSubscribed(p, subscribed, hasUrl);
      CounterInv(t) && t.handed == p.handed && t.pending == p.pending
  {
  }

  lemma StepKeepsInv(s: Net, a: Action)
    requires Inv(s) && Clean(s, a)
    ensures Inv(Step(s, a))
  {
    match a
    case Publish(_) => PublishKeepsInv(s, a);
    case Lose(sid) => if UnderWay(s, sid) { LoseKeepsInv(s, sid); }
    case Deliver(sid) => if UnderWay(s, sid) { DeliverKeepsInv(s, sid); }
    case Idle => if !(s.proxy.sid.None? && s.proxy.subscribed) { IdleKeepsInv(s); }
    case Answered(reply, jitter) =>
      AnswerKeepsCounter(s.proxy, reply, jitter);
      ProxyKeepsInv(s, Sink.GotResponse(s.proxy, reply, jitter));
    case RenewalDue => ProxyKeepsInv(s, Sink.Expire(s.proxy));
    case Toggle(subscribed) =>
      ToggleKeepsCounter(s.proxy, subscribed, s.hasUrl);
      ProxyKeepsInv(s, Sink.SetSubscribed(s.proxy, subscribed, s.hasUrl));
  }

  lemma {:induction false} RunKeepsInv(s: Net, actions: seq<Action>)
    requires Inv(s) && CleanRun(s, actions)
    ensures Inv(Run(s, actions))
    decreases actions
  {
    if actions != [] {
      StepKeepsInv(s, actions[0]);
      RunKeepsInv(Step(s, actions[0]), actions[1..]);
    }
  }

  lemma InitialInv(hasUrl: bool)
    ensures Inv(Initial(hasUrl))
  {
    assert Source.Concat(Source.INITIAL.flushed) == [];
  }

  /** End to end: after every clean run of publisher, lossy channel and subscriber, what the
      application was handed under each SID is a prefix, without a hole, of what the publisher
      attempted to send under it: SEQ 0, 1, 2, ... with their property sets. */
  lemma EventsArriveInOrder(hasUrl: bool, actions: seq<Action>, sid: Sid)
    requires CleanRun(Initial(hasUrl), actions)
    ensures var s := Run(Initial(hasUrl), actions);
      var h := Sink.OfSid(s.proxy.handed, sid);
      && (sid in s.wire ==> h <= Sent(sid, s.wire[sid]))
      && (sid !in s.wire ==> h == [])
      && (sid in s.pub.subs ==> sid in s.wire && s.wire[sid] == s.pub.subs[sid].attempts)
      && forall i :: 0 <= i < |h| ==> h[i].seqNo == i
  {
    var start := Initial(hasUrl);
    InitialInv(hasUrl);
    RunKeepsInv(start, actions);
    var s := Run(start, actions);
    assert HandedInv(s.wire, s.cursor, s.proxy.handed, sid);
  }

  // ---------------------------------------------------------------- the proxy over any run at all

  /** A renewal is due only under a SID, the idle handler is installed exactly while something is
      queued, and a subscribed proxy listens. */
  predicate ProxyInv(p: Sink.State) {
    && (p.renewal.Some? ==> p.sid.Some?)
    && (p.idle <==> p.pending != [])
    && (p.subscribed ==> p.listening)
  }

  lemma DeliverKeepsProxy(p: Sink.State, r: Sink.Request)
    requires ProxyInv(p)
    ensures ProxyInv(Sink.Incoming(p, r))
  {
  }

  lemma StepKeepsProxy(s: Net, a: Action)
    requires s.pub.Valid() && ProxyInv(s.proxy)
    ensures ProxyInv(Step(s, a).proxy)
  {
    if a.Deliver? && UnderWay(s, a.sid) {
      DeliverKeepsProxy(s.proxy, Sink.Message(a.sid, s.wire[a.sid][s.cursor[a.sid]]));
    }
  }

  lemma {:induction false} RunKeepsProxy(s: Net, actions: seq<Action>)
    requires s.pub.Valid() && ProxyInv(s.proxy)
    ensures ProxyInv(Run(s, actions).proxy)
    decreases actions
  {
    if actions != [] {
      StepKeepsProxy(s, actions[0]);
      StepValid(s, actions[0]);
      RunKeepsProxy(Step(s, actions[0]), actions[1..]);
    }
  }

  /** After every run, clean or not, the renewal timer cannot fire without a SID, nothing is queued
      without the idle handler being installed, and a subscribed proxy listens. */
  lemma ProxyStaysConsistent(hasUrl: bool, actions: seq<Action>)
    ensures ProxyInv(Run(Initial(hasUrl), actions).proxy)
  {
    RunKeepsProxy(Initial(hasUrl), actions);
  }
}
