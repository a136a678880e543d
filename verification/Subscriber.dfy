/** The subscriber as it runs: a service proxy with its queue of pending notifications. */
module Subscriber {
  import opened Wrappers
  import opened Decimal
  import opened Subscription
  import ES = EventSink

  class ServiceProxy {
    const hasUrl: bool     // the service has a usable event subscription URL
    var subscribed: bool
    var sid: Option<Sid>
    var count: nat         // `seq`, the event sequence number expected next
    var pendingNotifies: seq<ES.Queued>
    var notifyIdle: bool
    var listening: bool
    var subscriptionTimeout: Option<int>
    var handed: seq<ES.Queued>
    var requests: seq<ES.Outgoing>
    var lost: nat

    ghost function State(): ES.State
      reads this
    {
      ES.State(subscribed, sid, count, pendingNotifies, notifyIdle, listening, subscriptionTimeout,
               handed, requests, lost)
    }

    constructor (hasUrl: bool)
      ensures this.hasUrl == hasUrl && State() == ES.INITIAL
    {
      this.hasUrl := hasUrl;
      subscribed, sid, count, pendingNotifies, notifyIdle := false, None, 0, [], false;
      listening, subscriptionTimeout, handed, requests, lost := false, None, [], [], 0;
    }

    method ServerHandler(r: ES.Request) returns (reply: ES.Reply)
      requires listening
      modifies this
      ensures reply == ES.Handle(r, old(sid).Some?).0
      ensures State() == ES.Incoming(old(State()), r)
    {
      if r.verb != "NOTIFY" {
        return ES.NotImplemented;
      }
      if r.nt.None? || r.nts.None? {
        return ES.BadRequest;
      }
      if r.nt.value != "upnp:event" || r.nts.value != "upnp:propchange" {
        return ES.PreconditionFailed;
      }
      if r.seqHdr.None? {
        return ES.PreconditionFailed;
      }
      var seqParsed := Strtoul(r.seqHdr.value);
      if seqParsed.None? || seqParsed.value > ES.MAX_UINT32 {
        return ES.PreconditionFailed;
      }
      if r.sidHdr.None? || |r.sidHdr.value| <= |"uuid:"| || r.sidHdr.value[..|"uuid:"|] != "uuid:" {
        return ES.PreconditionFailed;
      }
      match r.body
      case Unparsable => return ES.InternalServerError;
      case OtherRoot => return ES.Ok;
      case Doc(properties) =>
        if sid.None? {
          return ES.Ok;
        }
        pendingNotifies := pendingNotifies + [ES.Queued(r.sidHdr.value, seqParsed.value, properties)];
        if !notifyIdle {
          notifyIdle := true;
        }
        reply := ES.Ok;
    }

    /** The loop of the idle handler: stops at the first notification that is ahead. */
    method TakeNotifications() returns (gap: bool)
      modifies this`count, this`handed
      ensures var d := ES.Drain(pendingNotifies, old(count), sid);
        gap == d.gap && count == d.count && handed == old(handed) + d.handed
    {
      gap := false;
      var i := 0;
      ghost var all := ES.Drain(pendingNotifies, count, sid);
      while i < |pendingNotifies| && !gap
        invariant 0 <= i <= |pendingNotifies|
        invariant gap ==> i < |pendingNotifies| && pendingNotifies[i].seqNo > count
        invariant var rest := ES.Drain(pendingNotifies[i..], count, sid);
          all.gap == rest.gap && all.count == rest.count && old(handed) + all.handed == handed + rest.handed
        decreases |pendingNotifies| - i, !gap
      {
        var data := pendingNotifies[i];
        assert pendingNotifies[i..][1..] == pendingNotifies[i + 1..];
        if data.seqNo > count {
          gap := true;
        } else {
          if count < ES.MAX_UINT32 {
            count := count + 1;
          } else {
            count := 1;
          }
          if sid.Some? && data.sid == sid.value {
            handed := handed + [data];
          }
          i := i + 1;
        }
      }
    }

    /** The idle handler; `again` keeps it installed. */
    method EmitNotifications() returns (again: bool)
      modifies this
      ensures again == (old(sid).None? && old(subscribed))
      ensures State() == ES.Emit(old(State()), hasUrl)
    {
      if sid == None && subscribed {
        return true;
      }
      var resubscribe := TakeNotifications();
      pendingNotifies := [];
      if resubscribe {
        Unsubscribe();
        Subscribe();
      }
      notifyIdle := false;
      again := false;
    }

    method Subscribe()
      modifies this
      ensures State() == ES.Subscribe(old(State()), hasUrl)
    {
      subscriptionTimeout := None;
      if !hasUrl {
        subscribed := false;
        lost := lost + 1;
        return;
      }
      listening := true;
      requests := requests + [ES.SubscribeRequest];
    }

    method Unsubscribe()
      modifies this
      ensures State() == ES.Unsubscribe(old(State()))
    {
      listening := false;
      if sid.Some? {
        requests := requests + [ES.UnsubscribeRequest(sid.value)];
        sid := None;
        count := 0;
      }
      subscriptionTimeout := None;
    }

    method SetSubscribed(wanted: bool)
      modifies this
      ensures State() == ES.SetSubscribed(old(State()), wanted, hasUrl)
    {
      if subscribed == wanted {
        return;
      }
      subscribed := wanted;
      if wanted {
        Subscribe();
      } else {
        Unsubscribe();
      }
    }

    /** `jitter` is the random part of the renewal delay. */
    method SubscribeGotResponse(r: ES.SubscribeReply, jitter: int)
      requires ES.JitterFor(r, jitter)
      modifies this
      ensures State() == ES.GotResponse(old(State()), r, jitter)
    {
      if r.Cancelled? {
        return;
      }
      var failed := r.TransportError?;
      if !failed {
        subscriptionTimeout := None;
        if !subscribed {
          return;
        }
        sid := None;
        if r.HttpOk? && r.sid.Some? {
          sid := r.sid;
          if r.timeout.None? {
            return;
          }
          var lease := ES.Lease(r.timeout.value);
          if lease.Some? {
            subscriptionTimeout := Some(ES.RenewalDelay(lease.value, jitter));
          }
        } else {
          failed := true;
        }
      }
      if failed {
        listening := false;
        subscribed := false;
        lost := lost + 1;
      }
    }

    method SubscriptionExpire()
      modifies this
      ensures State() == ES.Expire(old(State()))
    {
      subscriptionTimeout := None;
      if sid.Some? {
        requests := requests + [ES.RenewRequest(sid.value)];
      }
    }
  }
}
