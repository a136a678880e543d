/** The subscriber's side of eventing, on values: what every event makes of a service proxy. */
module EventSink {
  import opened Wrappers
  import opened Decimal
  import opened Subscription

  const MAX_UINT32: nat := 0xFFFF_FFFF
  const GENA_DEFAULT_TIMEOUT: nat := 1800

  /** A notification waiting for the idle handler. */
  datatype Queued = Queued(sid: Sid, seqNo: nat, body: PropertySet)

  datatype Outgoing = SubscribeRequest | RenewRequest(sid: Sid) | UnsubscribeRequest(sid: Sid)

  datatype State = State(
    subscribed: bool,
    sid: Option<Sid>,
    count: nat,                 // the proxy's own `seq`
    pending: seq<Queued>,
    idle: bool,                 // the idle handler is installed
    listening: bool,            // the server handler is installed
    renewal: Option<int>,       // seconds the renewal timer was set to
    handed: seq<Queued>,        // everything handed up to the application
    requests: seq<Outgoing>,    // everything sent to the publisher
    lost: nat)                  // how often `subscription-lost` was signalled

  const INITIAL := State(false, None, 0, [], false, false, None, [], [], 0)

  // ---------------------------------------------------------------- an incoming NOTIFY

  datatype Body = Unparsable | OtherRoot | Doc(properties: PropertySet)
  datatype Request = Request(
    verb: string, nt: Option<string>, nts: Option<string>, seqHdr: Option<string>, sidHdr: Option<string>, body: Body)
  datatype Reply = Ok | BadRequest | PreconditionFailed | InternalServerError | NotImplemented

  predicate ValidSid(sid: string) { |sid| > 5 && sid[..5] == "uuid:" }

  /** The reply to a request, and the notification it queues if it is accepted. */
  function Handle(r: Request, haveSid: bool): (Reply, Option<Queued>) {
    if r.verb != "NOTIFY" then (NotImplemented, None)
    else if r.nt.None? || r.nts.None? then (BadRequest, None)
    else if r.nt.value != "upnp:event" || r.nts.value != "upnp:propchange" then (Reply.PreconditionFailed, None)
    else if r.seqHdr.None? then (Reply.PreconditionFailed, None)
    else
      var seqNo := Strtoul(r.seqHdr.value);
      if seqNo.None? || seqNo.value > MAX_UINT32 then (Reply.PreconditionFailed, None)
      else if r.sidHdr.None? || !ValidSid(r.sidHdr.value) then (Reply.PreconditionFailed, None)
      else if r.body.Unparsable? then (InternalServerError, None)
      else if r.body.OtherRoot? || !haveSid then (Ok, None)
      else (Ok, Some(Queued(r.sidHdr.value, seqNo.value, r.body.properties)))
  }

  /** A NOTIFY of an event whose SEQ fits 32 bits and whose SID is a UUID. */
  predicate HeadersRight(r: Request) {
    && r.verb == "NOTIFY" && r.nt == Some("upnp:event") && r.nts == Some("upnp:propchange")
    && r.seqHdr.Some? && Strtoul(r.seqHdr.value).Some? && Strtoul(r.seqHdr.value).value <= MAX_UINT32
    && r.sidHdr.Some? && ValidSid(r.sidHdr.value)
  }

  /** What each reply means; and a notification is queued exactly when its headers are right, its body
      is a property set, and a SID is held. */
  lemma WhenQueued(r: Request, haveSid: bool, q: Queued)
    ensures var reply := Handle(r, haveSid).0;
      && (reply == NotImplemented <==> r.verb != "NOTIFY")
      && (reply == BadRequest <==> r.verb == "NOTIFY" && (r.nt.None? || r.nts.None?))
      && (reply == Reply.PreconditionFailed <==>
            r.verb == "NOTIFY" && r.nt.Some? && r.nts.Some? && !HeadersRight(r))
      && (reply == InternalServerError <==> HeadersRight(r) && r.body.Unparsable?)
      && (reply == Ok <==> HeadersRight(r) && !r.body.Unparsable?)
    ensures Handle(r, haveSid).1 == Some(q) <==>
      && HeadersRight(r) && r.body == Doc(q.body) && haveSid
      && q.seqNo == Strtoul(r.seqHdr.value).value && q.sid == r.sidHdr.value
  {
  }

  function Incoming(s: State, r: Request): State {
    if !s.listening then s
    else match Handle(r, s.sid.Some?).1
         case None => s
         case Some(q) => s.(pending := s.pending + [q], idle := true)
  }

  /** The NOTIFY a publisher makes of an attempt. */
  function Message(sid: Sid, a: Attempt): Request {
    Request("NOTIFY", Some("upnp:event"), Some("upnp:propchange"), Some(Print(a.seqNo)), Some(sid), Doc(a.body))
  }

  /** What the publisher puts on the wire is what the subscriber queues. */
  lemma MessageIsUnderstood(sid: Sid, a: Attempt)
    requires ValidSid(sid) && a.seqNo <= MAX_UINT32
    ensures Handle(Message(sid, a), true) == (Ok, Some(Queued(sid, a.seqNo, a.body)))
  {
    ReadBack(a.seqNo);
  }

  // ---------------------------------------------------------------- the idle handler

  function NextCount(count: nat): nat {
    if count < MAX_UINT32 then count + 1 else 1
  }

  datatype Drained = Drained(handed: seq<Queued>, count: nat, gap: bool)

  /** Take queued notifications in order up to the first whose SEQ is ahead of the counter. */
  function Drain(pending: seq<Queued>, count: nat, sid: Option<Sid>): Drained {
    if pending == [] then Drained([], count, false)
    else if pending[0].seqNo > count then Drained([], count, true)
    else
      var rest := Drain(pending[1..], NextCount(count), sid);
      if sid == Some(pending[0].sid) then rest.(handed := [pending[0]] + rest.handed) else rest
  }

  function Emit(s: State, hasUrl: bool): State {
    if s.sid.None? && s.subscribed then s
    else
      var d := Drain(s.pending, s.count, s.sid);
      var t := s.(pending := [], count := d.count, handed := s.handed + d.handed);
      var u := if d.gap then Subscribe(Unsubscribe(t), hasUrl) else t;
      u.(idle := false)
  }

  // ---------------------------------------------------------------- subscribing

  function Subscribe(s: State, hasUrl: bool): State {
    if !hasUrl then s.(renewal := None, subscribed := false, lost := s.lost + 1)
    else s.(renewal := None, listening := true, requests := s.requests + [SubscribeRequest])
  }

  function Unsubscribe(s: State): State {
    var t := s.(listening := false, renewal := None);
    if s.sid.Some? then
      t.(requests := s.requests + [UnsubscribeRequest(s.sid.value)], sid := None, count := 0)
    else t
  }

  function SetSubscribed(s: State, subscribed: bool, hasUrl: bool): State {
    if s.subscribed == subscribed then s
    else
      var t := s.(subscribed := subscribed);
      if subscribed then Subscribe(t, hasUrl) else Unsubscribe(t)
  }

  datatype SubscribeReply =
    | Cancelled
    | TransportError
    | HttpFailure
    | HttpOk(sid: Option<Sid>, timeout: Option<string>)

  /** The lease a Timeout header announces; `None` for an infinite one. */
  function Lease(hdr: string): Option<nat> {
    if |hdr| >= 7 && hdr[..7] == "Second-" then
      var n := Atoi(hdr[7..]);
      Some(if n < 0 then GENA_DEFAULT_TIMEOUT else n)
    else None
  }

  /** What `g_random_int_range (-T/4, T/4)` can return; 0 when that range is empty. */
  predicate IsJitter(lease: nat, jitter: int) {
    if lease / 4 == 0 then jitter == 0 else -(lease / 4) <= jitter < lease / 4
  }

  predicate JitterFor(r: SubscribeReply, jitter: int) {
    r.HttpOk? && r.timeout.Some? && Lease(r.timeout.value).Some? ==> IsJitter(Lease(r.timeout.value).value, jitter)
  }

  function RenewalDelay(lease: nat, jitter: int): int { lease / 2 + jitter }

  function Lost(s: State): State {
    s.(listening := false, subscribed := false, lost := s.lost + 1)
  }

  function GotResponse(s: State, r: SubscribeReply, jitter: int): State {
    match r
    case Cancelled => s
    case TransportError => Lost(s)
    case HttpFailure =>
      var t := s.(renewal := None);
      if !s.subscribed then t else Lost(t.(sid := None))
    case HttpOk(sid, timeout) =>
      var t := s.(renewal := None);
      if !s.subscribed then t
      else if sid.None? then Lost(t.(sid := None))
      else
        var u := t.(sid := sid);
        if timeout.None? || Lease(timeout.value).None? then u
        else u.(renewal := Some(RenewalDelay(Lease(timeout.value).value, jitter)))
  }

  function Expire(s: State): State {
    var t := s.(renewal := None);
    if s.sid.None? then t else t.(requests := s.requests + [RenewRequest(s.sid.value)])
  }

  // ---------------------------------------------------------------- facts about draining

  /** The notifications of one SID, in order. */
  function OfSid(queue: seq<Queued>, sid: Sid): seq<Queued> {
    if queue == [] then []
    else
      var init, last := queue[..|queue| - 1], queue[|queue| - 1];
      OfSid(init, sid) + if last.sid == sid then [last] else []
  }

  lemma {:induction false} OfSidAppend(a: seq<Queued>, b: seq<Queued>, sid: Sid)
    ensures OfSid(a + b, sid) == OfSid(a, sid) + OfSid(b, sid)
    decreases |b|
  {
    if b == [] {
      assert a + b == a;
    } else {
      var init, last := b[..|b| - 1], b[|b| - 1];
      assert (a + b)[..|a + b| - 1] == a + init;
      assert (a + b)[|a + b| - 1] == last;
      OfSidAppend(a, init, sid);
    }
  }

  lemma {:induction false} OfSidMembers(queue: seq<Queued>, sid: Sid, q: Queued)
    ensures q in OfSid(queue, sid) <==> q in queue && q.sid == sid
    decreases |queue|
  {
    if queue != [] {
      OfSidMembers(queue[..|queue| - 1], sid, q);
      assert queue == queue[..|queue| - 1] + [queue[|queue| - 1]];
    }
  }

  /** Without a gap every queued notification was counted; the counter kept step with what was
      handed up exactly when all of them were for the current SID. */
  lemma {:induction false} DrainCounts(pending: seq<Queued>, count: nat, sid: Option<Sid>)
    requires count + |pending| <= MAX_UINT32
    ensures var d := Drain(pending, count, sid);
      && count + |d.handed| <= d.count <= count + |pending|
      && (!d.gap ==>
            && d.count == count + |pending|
            && (d.count == count + |d.handed| <==> forall i :: 0 <= i < |pending| ==> Some(pending[i].sid) == sid))
    decreases |pending|
  {
    if pending != [] && pending[0].seqNo <= count {
      DrainCounts(pending[1..], count + 1, sid);
      forall i | 0 <= i < |pending| && i > 0 ensures pending[i] == pending[1..][i - 1] {
      }
    }
  }

  /** Draining in two goes hands up what draining in one go does, and stops at the same gap. */
  lemma {:induction false} DrainAppend(a: seq<Queued>, b: seq<Queued>, count: nat, sid: Option<Sid>)
    ensures var d := Drain(a, count, sid);
      Drain(a + b, count, sid) ==
        if d.gap then d
        else var e := Drain(b, d.count, sid); e.(handed := d.handed + e.handed)
    decreases |a|
  {
    if a == [] {
      assert a + b == b;
    } else {
      assert (a + b)[1..] == a[1..] + b;
      if a[0].seqNo <= count {
        DrainAppend(a[1..], b, NextCount(count), sid);
      }
    }
  }

  /** What draining hands up was queued. */
  lemma {:induction false} DrainTakes(pending: seq<Queued>, count: nat, sid: Option<Sid>, q: Queued)
    ensures q in Drain(pending, count, sid).handed ==> q in pending
    decreases |pending|
  {
    if pending != [] && pending[0].seqNo <= count {
      DrainTakes(pending[1..], NextCount(count), sid, q);
    }
  }
}
