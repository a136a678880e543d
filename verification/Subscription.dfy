/** One entry of the publisher's subscription table, on values.

    `Sub` is the state of a `SubscriptionData` together with the history of the NOTIFYs
    attempted for it.  `Notify` and `Respond` are the two operations that move it. */
module Subscription {
  import opened Wrappers

  const MAX_INT32: nat := 0x7FFF_FFFF

  type Sid = string
  type Url = string
  datatype Property = Property(variable: string, value: string)
  type PropertySet = seq<Property>

  /** Why a NOTIFY was attempted. */
  datatype Origin = InitialState | Flush | Failover
  datatype Attempt = Attempt(url: Url, seqNo: nat, body: PropertySet, origin: Origin)

  /** A NOTIFY whose response has not come in; `id` is its place in the attempt history. */
  datatype Pending = Pending(id: nat, body: PropertySet)

  datatype Status = Successful | PreconditionFailed | OtherFailure

  datatype Sub = Sub(
    callbacks: seq<Url>,       // the whole callback list
    current: nat,              // where the `callbacks` pointer stands in it
    seqNo: nat,                // SEQ of the next NOTIFY
    pending: seq<Pending>,
    initialStateSent: bool,
    toDelete: bool,
    since: nat,                // how many property sets had been flushed when it was accepted
    attempts: seq<Attempt>)    // everything sent so far, oldest first
  {
    predicate PointerInList() { current < |callbacks| }

    predicate CanDelete() { initialStateSent && toDelete }

    predicate HasPending(id: nat) { exists i :: 0 <= i < |pending| && pending[i].id == id }
  }

  function NextSeq(n: nat): nat {
    if n < MAX_INT32 then n + 1 else 1
  }

  /** The subscription as `subscribe` creates it, before its initial state is sent. */
  function NewSub(callbacks: seq<Url>, since: nat): Sub {
    Sub(callbacks, 0, 0, [], false, false, since, [])
  }

  /** Send `body` to the current callback, unless the subscriber has gone. */
  function Notify(s: Sub, body: PropertySet, origin: Origin): Sub
    requires s.PointerInList()
  {
    if s.CanDelete() then s
    else s.(
      seqNo := NextSeq(s.seqNo),
      pending := [Pending(|s.attempts|, body)] + s.pending,
      attempts := s.attempts + [Attempt(s.callbacks[s.current], s.seqNo, body, origin)])
  }

  function Lookup(ps: seq<Pending>, id: nat): Pending
    requires exists i :: 0 <= i < |ps| && ps[i].id == id
  {
    if ps[0].id == id then ps[0] else Lookup(ps[1..], id)
  }

  /** What the response to a NOTIFY with this body, already off the list, does to the subscription. */
  function Answered(s: Sub, body: PropertySet, status: Status): Option<Sub>
    requires s.PointerInList()
  {
    match status
    case Successful => Some(s.(initialStateSent := true, current := 0))
    case PreconditionFailed => None
    case OtherFailure =>
      if s.current + 1 < |s.callbacks| then Some(Notify(s.(current := s.current + 1), body, Failover))
      else Some(s.(current := 0))
  }

  /** The response to NOTIFY `id` came in; `None` means the subscription is dropped. */
  function Respond(s: Sub, id: nat, status: Status): Option<Sub>
    requires s.PointerInList() && s.HasPending(id)
  {
    Answered(s.(pending := Without(s.pending, Lookup(s.pending, id))), Lookup(s.pending, id).body, status)
  }

  // ---------------------------------------------------------------- SEQ of the n-th attempt

  /** SEQ of attempt n of a subscription: 0 once, then 1, 2, ..., 2^31-1, 1, 2, ... */
  function SeqAt(n: nat): nat {
    if n == 0 then 0 else (n - 1) % MAX_INT32 + 1
  }

  lemma SeqAtSteps(n: nat)
    ensures SeqAt(n + 1) == NextSeq(SeqAt(n))
    ensures SeqAt(n) <= MAX_INT32
    ensures SeqAt(n) == 0 <==> n == 0
    ensures n <= MAX_INT32 ==> SeqAt(n) == n
  {
    if n > 0 {
      var q, r := (n - 1) / MAX_INT32, (n - 1) % MAX_INT32;
      assert n - 1 == q * MAX_INT32 + r;
      if r + 1 < MAX_INT32 {
        assert n == q * MAX_INT32 + (r + 1);
      } else {
        assert n == (q + 1) * MAX_INT32;
      }
    }
  }

  // ---------------------------------------------------------------- what every step keeps

  /** The bodies of the attempts a flush made, oldest first. */
  function FlushBodies(attempts: seq<Attempt>): seq<PropertySet> {
    if attempts == [] then []
    else
      var init, last := attempts[..|attempts| - 1], attempts[|attempts| - 1];
      FlushBodies(init) + if last.origin == Flush then [last.body] else []
  }

  lemma FlushBodiesSnoc(attempts: seq<Attempt>, a: Attempt)
    ensures FlushBodies(attempts + [a]) == FlushBodies(attempts) + if a.origin == Flush then [a.body] else []
  {
    assert (attempts + [a])[..|attempts|] == attempts;
  }

  predicate DistinctIds(ps: seq<Pending>) {
    forall i, j :: 0 <= i < j < |ps| ==> ps[i].id != ps[j].id
  }

  predicate PendingMatches(ps: seq<Pending>, attempts: seq<Attempt>) {
    forall i :: 0 <= i < |ps| ==> ps[i].id < |attempts| && ps[i].body == attempts[ps[i].id].body
  }

  /** SEQ numbers run without a hole and every attempt went to a callback of the subscription. */
  predicate AttemptsNumbered(s: Sub) {
    && s.seqNo == SeqAt(|s.attempts|)
    && forall n :: 0 <= n < |s.attempts| ==> s.attempts[n].seqNo == SeqAt(n) && s.attempts[n].url in s.callbacks
  }

  /** The initial state went out first; what followed of the flushes is exactly what was
      flushed since, cut short only once the subscription may be deleted. */
  predicate DeliveryOrder(s: Sub, flushed: seq<PropertySet>) {
    && (|s.attempts| > 0 ==> s.attempts[0].origin == InitialState)
    && s.since <= |flushed|
    && FlushBodies(s.attempts) <= flushed[s.since..]
    && (!s.CanDelete() ==> FlushBodies(s.attempts) == flushed[s.since..])
  }

  predicate SubInv(s: Sub, flushed: seq<PropertySet>) {
    && s.PointerInList()
    && DistinctIds(s.pending)
    && PendingMatches(s.pending, s.attempts)
    && AttemptsNumbered(s)
    && DeliveryOrder(s, flushed)
  }

  lemma NewSubInv(callbacks: seq<Url>, flushed: seq<PropertySet>)
    requires callbacks != []
    ensures SubInv(NewSub(callbacks, |flushed|), flushed)
  {
  }

  lemma NotifyNumbered(s: Sub, body: PropertySet, origin: Origin)
    requires s.PointerInList() && AttemptsNumbered(s)
    ensures AttemptsNumbered(Notify(s, body, origin))
  {
    SeqAtSteps(|s.attempts|);
  }

  /** An initial-state or failover send keeps the invariant. */
  lemma NotifyKeepsInv(s: Sub, body: PropertySet, origin: Origin, flushed: seq<PropertySet>)
    requires SubInv(s, flushed) && origin != Flush
    requires s.attempts == [] ==> origin == InitialState
    ensures SubInv(Notify(s, body, origin), flushed)
  {
    NotifyNumbered(s, body, origin);
    if !s.CanDelete() {
      FlushBodiesSnoc(s.attempts, Attempt(s.callbacks[s.current], s.seqNo, body, origin));
    }
  }

  /** A flush keeps the invariant with the flushed set added to the history. */
  lemma FlushKeepsInv(s: Sub, body: PropertySet, flushed: seq<PropertySet>)
    requires SubInv(s, flushed) && s.attempts != []
    ensures SubInv(Notify(s, body, Flush), flushed + [body])
  {
    NotifyNumbered(s, body, Flush);
    assert (flushed + [body])[s.since..] == flushed[s.since..] + [body];
    if !s.CanDelete() {
      FlushBodiesSnoc(s.attempts, Attempt(s.callbacks[s.current], s.seqNo, body, Flush));
    }
  }

  lemma LookupFinds(ps: seq<Pending>, id: nat)
    requires exists i :: 0 <= i < |ps| && ps[i].id == id
    ensures Lookup(ps, id) in ps && Lookup(ps, id).id == id
  {
    if ps[0].id != id {
      var i :| 0 <= i < |ps| && ps[i].id == id;
      assert ps[1..][i - 1].id == id;
      LookupFinds(ps[1..], id);
    }
  }

  lemma WithoutRemoves(ps: seq<Pending>, id: nat)
    requires exists i :: 0 <= i < |ps| && ps[i].id == id
    ensures var left := Without(ps, Lookup(ps, id));
      && |left| == |ps| - 1
      && (forall p :: p in left ==> p in ps)
      && (DistinctIds(ps) ==> DistinctIds(left) && forall p :: p in left ==> p.id != id)
  {
    LookupFinds(ps, id);
    WithoutLength(ps, Lookup(ps, id));
    if DistinctIds(ps) {
      LeftDistinct(ps, Lookup(ps, id));
    }
  }

  lemma {:induction false} LeftDistinct(ps: seq<Pending>, p: Pending)
    requires DistinctIds(ps) && p in ps
    ensures DistinctIds(Without(ps, p)) && forall q :: q in Without(ps, p) ==> q.id != p.id
    decreases |ps|
  {
    if ps[0] == p {
    } else {
      var w := Without(ps[1..], p);
      LeftDistinct(ps[1..], p);
      WithoutLength(ps[1..], p);
      forall j | 0 <= j < |w| ensures w[j].id != ps[0].id {
        assert w[j] in ps[1..];
      }
    }
  }

  /** Taking an answered NOTIFY off the list keeps the invariant. */
  lemma WithoutKeepsInv(s: Sub, id: nat, flushed: seq<PropertySet>)
    requires SubInv(s, flushed) && s.HasPending(id)
    ensures SubInv(s.(pending := Without(s.pending, Lookup(s.pending, id))), flushed)
  {
    WithoutRemoves(s.pending, id);
    var ps := Without(s.pending, Lookup(s.pending, id));
    forall i | 0 <= i < |ps| ensures ps[i].id < |s.attempts| && ps[i].body == s.attempts[ps[i].id].body {
      assert ps[i] in s.pending;
    }
  }

  /** The invariant does not care where in the list the pointer stands, nor that a delivery
      succeeded. */
  lemma FlagsKeepInv(s: Sub, current: nat, sent: bool, flushed: seq<PropertySet>)
    requires SubInv(s, flushed) && current < |s.callbacks| && (s.initialStateSent ==> sent)
    ensures SubInv(s.(current := current, initialStateSent := sent), flushed)
  {
    var t := s.(current := current, initialStateSent := sent);
    assert AttemptsNumbered(t);
    assert DeliveryOrder(t, flushed);
  }

  lemma FailoverKeepsInv(s: Sub, body: PropertySet, flushed: seq<PropertySet>)
    requires SubInv(s, flushed) && s.attempts != [] && s.current + 1 < |s.callbacks|
    ensures SubInv(Notify(s.(current := s.current + 1), body, Failover), flushed)
  {
    FlagsKeepInv(s, s.current + 1, s.initialStateSent, flushed);
    NotifyKeepsInv(s.(current := s.current + 1), body, Failover, flushed);
  }

  lemma AnswerKeepsInv(s: Sub, body: PropertySet, status: Status, flushed: seq<PropertySet>)
    requires SubInv(s, flushed) && s.attempts != []
    ensures var r := Answered(s, body, status); r.Some? ==> SubInv(r.value, flushed)
  {
    if status == Successful {
      FlagsKeepInv(s, 0, true, flushed);
    } else if status == OtherFailure {
      if s.current + 1 < |s.callbacks| {
        FailoverKeepsInv(s, body, flushed);
      } else {
        FlagsKeepInv(s, 0, s.initialStateSent, flushed);
      }
    }
  }

  lemma RespondKeepsInv(s: Sub, id: nat, status: Status, flushed: seq<PropertySet>)
    requires SubInv(s, flushed) && s.HasPending(id) && s.attempts != []
    ensures var r := Respond(s, id, status); r.Some? ==> SubInv(r.value, flushed)
  {
    WithoutKeepsInv(s, id, flushed);
    var message := Lookup(s.pending, id);
    AnswerKeepsInv(s.(pending := Without(s.pending, message)), message.body, status, flushed);
  }

  /** A response resends at most once, and then the number of pending NOTIFYs stays the same. */
  lemma RespondResends(s: Sub, id: nat, status: Status)
    requires s.PointerInList() && s.HasPending(id)
    ensures var r := Respond(s, id, status);
      r.Some? ==>
        && s.attempts <= r.value.attempts
        && |r.value.attempts| - |s.attempts| <= (if |r.value.pending| == |s.pending| then 1 else 0)
  {
    WithoutRemoves(s.pending, id);
  }
}
