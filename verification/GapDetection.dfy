/** Exactly when the subscriber's sequence counter catches a lost event. */
module GapDetection {
  import opened Wrappers
  import opened Subscription
  import opened EventSink

  /** The first n events of a subscription, as they would be queued. */
  function Stream(sid: Sid, bodies: seq<PropertySet>): seq<Queued> {
    seq(|bodies|, n requires 0 <= n < |bodies| => Queued(sid, SeqAt(n), bodies[n]))
  }

  /** A choice of events that got through: strictly ascending positions. */
  predicate Choice(kept: seq<nat>, n: nat) {
    && (forall i :: 0 <= i < |kept| ==> kept[i] < n)
    && forall i, j :: 0 <= i < j < |kept| ==> kept[i] < kept[j]
  }

  function Pick(stream: seq<Queued>, kept: seq<nat>): seq<Queued>
    requires Choice(kept, |stream|)
  {
    seq(|kept|, i requires 0 <= i < |kept| => stream[kept[i]])
  }

  /** Whatever is lost of what was sent, no own event is handed up past a hole. */
  ghost predicate CatchesEveryLoss(sent: seq<Queued>, count: nat, sid: Sid) {
    forall kept :: Choice(kept, |sent|) ==> Drain(Pick(sent, kept), count, Some(sid)).handed <= OfSid(sent, sid)
  }

  /** How many own events come before position k. */
  function Before(sent: seq<Queued>, sid: Sid, k: nat): nat
    requires k <= |sent|
  {
    |OfSid(sent[..k], sid)|
  }

  /** The notification at k is a foreign one, with b own events before it, that can be counted in
      place of own event b - 1 while b follows, or in place of own event b while b + 1 follows. */
  predicate HidesLoss(sent: seq<Queued>, sid: Sid, k: nat)
    requires k < |sent|
  {
    var n, b, f := |OfSid(sent, sid)|, Before(sent, sid, k), sent[k].seqNo;
    sent[k].sid != sid && ((b < n && f < b) || (b + 1 < n && f <= b))
  }

  /** Own events mixed with notifications for other SIDs are protected against every loss pattern
      if and only if there is one own event at most, or the SID was installed over a counter of
      zero, SEQ has not come round to 1 again, and no foreign notification hides a loss. */
  lemma WhenEveryLossIsCaught(sent: seq<Queued>, sid: Sid, bodies: seq<PropertySet>, count: nat)
    requires OfSid(sent, sid) == Stream(sid, bodies)
    ensures CatchesEveryLoss(sent, count, sid) <==>
      || |bodies| <= 1
      || (count == 0 && |bodies| <= MAX_INT32 + 1 && NoneHides(sent, sid))
  {
    if |bodies| <= 1 {
      SmallSeq(sid, bodies);
      forall kept | Choice(kept, |sent|) ensures Drain(Pick(sent, kept), count, Some(sid)).handed <= OfSid(sent, sid) {
        DrainPicked(sent, kept, sid, 0, count);
      }
    } else if count > 0 {
      StaleCounterMisses(sent, sid, bodies, count);
    } else if |bodies| > MAX_INT32 + 1 {
      WrappedStreamMisses(sent, sid, bodies);
    } else {
      SmallSeq(sid, bodies);
      if k :| 0 <= k < |sent| && HidesLoss(sent, sid, k) {
        ForeignMessageHidesLoss(sent, sid, k);
      } else {
        forall kept | Choice(kept, |sent|) ensures Drain(Pick(sent, kept), 0, Some(sid)).handed <= OfSid(sent, sid) {
          DrainPicked(sent, kept, sid, 0, 0);
        }
      }
    }
  }

  /** The own events carry SEQ 0, 1, 2, ..., without a wrap. */
  predicate Plain(own: seq<Queued>, sid: Sid) {
    |own| <= MAX_INT32 + 1 && forall n :: 0 <= n < |own| ==> own[n].sid == sid && own[n].seqNo == n
  }

  lemma SmallSeq(sid: Sid, bodies: seq<PropertySet>)
    requires |bodies| <= MAX_INT32 + 1
    ensures Plain(Stream(sid, bodies), sid)
  {
    forall n | 0 <= n < |bodies| ensures Stream(sid, bodies)[n].seqNo == n {
      SeqAtSteps(n);
    }
  }

  // ---------------------------------------------------------------- where the own events stand

  lemma BeforeSplits(sent: seq<Queued>, sid: Sid, j: nat, k: nat)
    requires j < k <= |sent|
    ensures Before(sent, sid, j) <= Before(sent, sid, k) <= |OfSid(sent, sid)|
    ensures sent[j].sid == sid ==>
      Before(sent, sid, j) < Before(sent, sid, k) && sent[j] == OfSid(sent, sid)[Before(sent, sid, j)]
  {
    assert sent[..k] == sent[..j] + [sent[j]] + sent[j + 1..k];
    assert sent == sent[..k] + sent[k..];
    OfSidAppend(sent[..j], [sent[j]], sid);
    OfSidAppend(sent[..j] + [sent[j]], sent[j + 1..k], sid);
    OfSidAppend(sent[..k], sent[k..], sid);
    assert [sent[j]][..0] == [];
  }

  /** Where the i-th own event stands. */
  function Where(sent: seq<Queued>, sid: Sid, i: nat): (p: nat)
    requires i < |OfSid(sent, sid)|
    ensures p < |sent| && sent[p] == OfSid(sent, sid)[i] && sent[p].sid == sid && Before(sent, sid, p) == i
  {
    var init := sent[..|sent| - 1];
    if i == |OfSid(init, sid)| then |sent| - 1
    else
      var p := Where(init, sid, i);
      assert sent[..p] == init[..p];
      p
  }

  lemma WhereAscends(sent: seq<Queued>, sid: Sid, i: nat, j: nat)
    requires i < j < |OfSid(sent, sid)|
    ensures Where(sent, sid, i) < Where(sent, sid, j)
  {
    var p, q := Where(sent, sid, i), Where(sent, sid, j);
    if q < p {
      BeforeSplits(sent, sid, q, p);
    }
  }

  // ---------------------------------------------------------------- the safe half

  predicate NoneHides(sent: seq<Queued>, sid: Sid) {
    forall k :: 0 <= k < |sent| ==> !HidesLoss(sent, sid, k)
  }

  /** With h own events handed up, no hole can be handed up any more: the counter agrees with h and
      nothing hides a loss, or one own event at most is left to hand up, or none is to come. */
  predicate InStep(sent: seq<Queued>, kept: seq<nat>, sid: Sid, h: nat, count: nat)
    requires Choice(kept, |sent|)
  {
    var n := |OfSid(sent, sid)|;
    && h <= n && (kept != [] ==> h <= Before(sent, sid, kept[0]))
    && (|| n <= h + 1
        || (kept != [] ==> n <= Before(sent, sid, kept[0]))
        || (h == count && NoneHides(sent, sid)))
  }

  lemma OwnStep(sent: seq<Queued>, kept: seq<nat>, sid: Sid, h: nat, count: nat)
    requires Choice(kept, |sent|) && InStep(sent, kept, sid, h, count) && Plain(OfSid(sent, sid), sid)
    requires kept != [] && sent[kept[0]].sid == sid && sent[kept[0]].seqNo <= count
    ensures h < |OfSid(sent, sid)| && sent[kept[0]] == OfSid(sent, sid)[h]
    ensures InStep(sent, kept[1..], sid, h + 1, NextCount(count))
  {
    assert sent[..|sent|] == sent;
    BeforeSplits(sent, sid, kept[0], |sent|);
    if |kept| > 1 {
      BeforeSplits(sent, sid, kept[0], kept[1]);
    }
  }

  /** A foreign notification that is counted where none hides a loss comes when all is settled. */
  lemma ForeignStep(sent: seq<Queued>, kept: seq<nat>, sid: Sid, h: nat, count: nat)
    requires Choice(kept, |sent|) && InStep(sent, kept, sid, h, count)
    requires kept != [] && sent[kept[0]].sid != sid && sent[kept[0]].seqNo <= count
    ensures InStep(sent, kept[1..], sid, h, NextCount(count))
  {
    if |kept| > 1 {
      BeforeSplits(sent, sid, kept[0], kept[1]);
    }
    if NoneHides(sent, sid) {
      assert !HidesLoss(sent, sid, kept[0]);
    }
  }

  predicate HandsUpNext(handed: seq<Queued>, own: seq<Queued>, h: nat) {
    h + |handed| <= |own| && handed == own[h..h + |handed|]
  }

  lemma TakeOne(queue: seq<Queued>, count: nat, sid: Sid, own: seq<Queued>, h: nat)
    requires queue != [] && queue[0].seqNo <= count
    ensures var rest := Drain(queue[1..], NextCount(count), Some(sid)).handed;
      var handed := Drain(queue, count, Some(sid)).handed;
      if queue[0].sid != sid then handed == rest
      else h < |own| && queue[0] == own[h] && HandsUpNext(rest, own, h + 1) ==> HandsUpNext(handed, own, h)
  {
    var rest := Drain(queue[1..], NextCount(count), Some(sid)).handed;
    if h + 1 + |rest| <= |own| {
      SliceCons(own, h, |rest|);
    }
  }

  /** Whatever is kept of what was sent hands up the next own events, without a hole. */
  lemma {:induction false} DrainPicked(sent: seq<Queued>, kept: seq<nat>, sid: Sid, h: nat, count: nat)
    requires Choice(kept, |sent|) && InStep(sent, kept, sid, h, count) && Plain(OfSid(sent, sid), sid)
    ensures HandsUpNext(Drain(Pick(sent, kept), count, Some(sid)).handed, OfSid(sent, sid), h)
    decreases |kept|
  {
    if kept != [] && sent[kept[0]].seqNo <= count {
      assert Pick(sent, kept)[1..] == Pick(sent, kept[1..]);
      TakeOne(Pick(sent, kept), count, sid, OfSid(sent, sid), h);
      if sent[kept[0]].sid == sid {
        OwnStep(sent, kept, sid, h, count);
        DrainPicked(sent, kept[1..], sid, h + 1, NextCount(count));
      } else {
        ForeignStep(sent, kept, sid, h, count);
        DrainPicked(sent, kept[1..], sid, h, NextCount(count));
      }
    }
  }

  // ---------------------------------------------------------------- the failing half

  /** Losing event 0 goes unnoticed when the counter starts above zero. */
  lemma StaleCounterMisses(sent: seq<Queued>, sid: Sid, bodies: seq<PropertySet>, count: nat)
    requires OfSid(sent, sid) == Stream(sid, bodies) && |bodies| >= 2 && count > 0
    ensures !CatchesEveryLoss(sent, count, sid)
  {
    var own := Stream(sid, bodies);
    var kept: seq<nat> := [Where(sent, sid, 1)];
    assert Pick(sent, kept) == [own[1]];
    DrainOne(own[1], count, sid);
    SeqAtSteps(1);
    assert Choice(kept, |sent|) && !(Drain(Pick(sent, kept), count, Some(sid)).handed <= own);
  }

  /** Losing everything between event 0 and the one that carries SEQ 1 again goes unnoticed. */
  lemma WrappedStreamMisses(sent: seq<Queued>, sid: Sid, bodies: seq<PropertySet>)
    requires OfSid(sent, sid) == Stream(sid, bodies) && |bodies| > MAX_INT32 + 1
    ensures !CatchesEveryLoss(sent, 0, sid)
  {
    var own := Stream(sid, bodies);
    var kept: seq<nat> := [Where(sent, sid, 0), Where(sent, sid, 1), Where(sent, sid, MAX_INT32 + 1)];
    WhereAscends(sent, sid, 0, 1);
    WhereAscends(sent, sid, 1, MAX_INT32 + 1);
    assert Choice(kept, |sent|);
    WrapDrains(own[0], own[1], own[MAX_INT32 + 1], sid);
    assert Pick(sent, kept) == [own[0], own[1], own[MAX_INT32 + 1]];
    NotAPrefix(Drain(Pick(sent, kept), 0, Some(sid)).handed, own, 2);
  }

  lemma WrapDrains(first: Queued, second: Queued, third: Queued, sid: Sid)
    requires first.sid == second.sid == third.sid == sid
    requires first.seqNo == 0 && second.seqNo == third.seqNo == 1
    ensures Drain([first, second, third], 0, Some(sid)).handed == [first, second, third]
  {
    DrainOne(first, 0, sid);
    DrainOne(second, 1, sid);
    DrainOne(third, 2, sid);
    DrainAppend([first], [second], 0, Some(sid));
    DrainAppend([first, second], [third], 0, Some(sid));
    assert [first] + [second] == [first, second] && [first, second] + [third] == [first, second, third];
  }

  /** A notification for another SID is dropped but counted: with m own events taken before it, it
      stands in for event m, and event m + 1 is handed up without that. */
  lemma ForeignMessageHidesLoss(sent: seq<Queued>, sid: Sid, k: nat)
    requires Plain(OfSid(sent, sid), sid)
    requires k < |sent| && HidesLoss(sent, sid, k)
    ensures !CatchesEveryLoss(sent, 0, sid)
  {
    var own, b := OfSid(sent, sid), Before(sent, sid, k);
    var m := if b + 1 < |own| && sent[k].seqNo <= b then b else b - 1;
    var kept := Around(sent, sid, k, m);
    assert Pick(sent, kept) == own[..m] + [sent[k]] + [own[m + 1]];
    StandInDrains(own, sid, m, sent[k]);
    NotAPrefix(Drain(Pick(sent, kept), 0, Some(sid)).handed, own, m);
  }

  lemma NotAPrefix(handed: seq<Queued>, own: seq<Queued>, m: nat)
    requires m < |handed| && (m < |own| ==> handed[m] != own[m])
    ensures !(handed <= own)
  {
  }

  lemma StandInDrains(own: seq<Queued>, sid: Sid, m: nat, foreign: Queued)
    requires Plain(own, sid) && m + 1 < |own| && foreign.sid != sid && foreign.seqNo <= m
    ensures Drain(own[..m] + [foreign] + [own[m + 1]], 0, Some(sid)).handed == own[..m] + [own[m + 1]]
  {
    var start, last := own[..m], own[m + 1];
    forall i | 0 <= i < |own| ensures SeqAt(i) == i {
      SeqAtSteps(i);
    }
    DrainWhole(own, sid, m);
    CountSteps(m);
    DrainOne(foreign, m, sid);
    DrainOne(last, m + 1, sid);
    DrainAppend(start, [foreign], 0, Some(sid));
    DrainAppend(start + [foreign], [last], 0, Some(sid));
  }

  /** The first m own events, the foreign notification, and own event m + 1. */
  lemma Around(sent: seq<Queued>, sid: Sid, k: nat, m: nat) returns (kept: seq<nat>)
    requires k < |sent| && sent[k].sid != sid
    requires m <= Before(sent, sid, k) <= m + 1 < |OfSid(sent, sid)|
    ensures Choice(kept, |sent|) && |kept| == m + 2
    ensures forall i :: 0 <= i < m ==> sent[kept[i]] == OfSid(sent, sid)[i]
    ensures kept[m] == k && sent[kept[m + 1]] == OfSid(sent, sid)[m + 1]
  {
    var own := OfSid(sent, sid);
    var start: seq<nat> := seq(m, i requires 0 <= i < m => Where(sent, sid, i));
    forall i | 0 <= i < m ensures start[i] < k {
      if k < start[i] {
        BeforeSplits(sent, sid, k, start[i]);
      }
    }
    forall i, j | 0 <= i < j < m ensures start[i] < start[j] {
      WhereAscends(sent, sid, i, j);
    }
    var last := Where(sent, sid, m + 1);
    if last < k {
      BeforeSplits(sent, sid, last, k);
    }
    kept := start + [k, last];
  }

  /** No response touches the counter: a failed renewal leaves it as it was, and the SID of the next
      subscription is installed over it.  That subscription is protected only if nothing had been
      counted before. */
  lemma AfterFailedRenewal(s: State, newSid: Sid, jitter: int, sent: seq<Queued>, bodies: seq<PropertySet>)
    requires s.subscribed && OfSid(sent, newSid) == Stream(newSid, bodies)
    ensures var failed := GotResponse(s, HttpFailure, 0);
      var again := GotResponse(SetSubscribed(failed, true, true), HttpOk(Some(newSid), None), jitter);
      && failed.sid == None && !failed.subscribed && again.sid == Some(newSid)
      && (CatchesEveryLoss(sent, again.count, newSid) <==>
            |bodies| <= 1 || (s.count == 0 && |bodies| <= MAX_INT32 + 1 && NoneHides(sent, newSid)))
  {
    WhenEveryLossIsCaught(sent, newSid, bodies, s.count);
  }

  // ---------------------------------------------------------------- where the two counters wrap

  /** The counter after n events taken. */
  function CountAt(n: nat): nat {
    if n == 0 then 0 else (n - 1) % MAX_UINT32 + 1
  }

  /** The counter goes 0, 1, ..., 2^32-1, 1, 2, ...: it is 0 once. */
  lemma CountSteps(n: nat)
    ensures CountAt(n + 1) == NextCount(CountAt(n)) && CountAt(n) <= MAX_UINT32
    ensures CountAt(n) == 0 <==> n == 0
    ensures n <= MAX_UINT32 ==> CountAt(n) == n
  {
    if n > 0 {
      var q, r := (n - 1) / MAX_UINT32, (n - 1) % MAX_UINT32;
      assert n - 1 == q * MAX_UINT32 + r;
      if r + 1 < MAX_UINT32 {
        assert n == q * MAX_UINT32 + (r + 1);
      } else {
        assert n == (q + 1) * MAX_UINT32;
      }
    }
  }

  lemma SeqAtMost(n: nat)
    ensures SeqAt(n) <= n
  {
  }

  lemma {:induction false} DrainWhole(stream: seq<Queued>, sid: Sid, n: nat)
    requires n <= |stream| <= MAX_UINT32 + 1
    requires forall i :: 0 <= i < |stream| ==> stream[i].sid == sid && stream[i].seqNo == SeqAt(i)
    ensures Drain(stream[..n], 0, Some(sid)) == Drained(stream[..n], CountAt(n), false)
  {
    if n > 0 {
      var start, last := stream[..n - 1], stream[n - 1];
      DrainWhole(stream, sid, n - 1);
      CountSteps(n - 1);
      SeqAtMost(n - 1);
      assert stream[..n] == start + [last];
      DrainAppend(start, [last], 0, Some(sid));
      DrainOne(last, CountAt(n - 1), sid);
    }
  }

  lemma DrainOne(q: Queued, count: nat, sid: Sid)
    ensures Drain([q], count, Some(sid)) ==
      if q.seqNo > count then Drained([], count, true)
      else Drained(if q.sid == sid then [q] else [], NextCount(count), false)
  {
    assert [q][1..] == [];
  }

  /** With nothing lost, events 0 .. 2^32-1 of a subscription all pass although the publisher's SEQ
      wraps at 2^31-1; event 2^32 is the first that is taken for a gap. */
  lemma FirstFalseResubscription(sid: Sid, bodies: seq<PropertySet>)
    ensures var stream := Stream(sid, bodies);
      var d := Drain(stream, 0, Some(sid));
      && (d.gap <==> |bodies| > MAX_UINT32 + 1)
      && d.handed == if d.gap then stream[..MAX_UINT32 + 1] else stream
  {
    var stream := Stream(sid, bodies);
    if |bodies| <= MAX_UINT32 + 1 {
      DrainWhole(stream, sid, |bodies|);
      assert stream[..|bodies|] == stream;
    } else {
      var limit := MAX_UINT32 + 1;
      var start := stream[..limit];
      DrainWhole(start, sid, limit);
      assert start[..limit] == start;
      assert SeqAt(limit) == 2 && CountAt(limit) == 1;
      DrainOne(stream[limit], CountAt(limit), sid);
      DrainAppend(start, [stream[limit]], 0, Some(sid));
      DrainAppend(start + [stream[limit]], stream[limit + 1..], 0, Some(sid));
      assert stream == start + [stream[limit]] + stream[limit + 1..];
    }
  }
}
