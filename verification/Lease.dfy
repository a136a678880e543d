/** Subscription leases in real time: the publisher's 300-second timer against the subscriber's
    jittered renewals. */
module LeaseTimers {
  import opened Wrappers
  import opened Decimal
  import opened Subscription
  import opened EventSink

  const SUBSCRIPTION_TIMEOUT: nat := 300

  /** The Timeout header of a subscription response. */
  function TimeoutHeader(timeout: nat): string {
    if timeout > 0 then "Second-" + Print(timeout) else "infinite"
  }

  lemma LeaseIsAnnounced(timeout: nat)
    requires 0 < timeout < TWO_TO_32 / 2
    ensures Lease(TimeoutHeader(timeout)) == Some(timeout)
  {
    ReadBack(timeout);
    assert TimeoutHeader(timeout)[..7] == "Second-";
    assert TimeoutHeader(timeout)[7..] == Print(timeout);
  }

  /** The renewal comes after a quarter of the lease and before three quarters of it. */
  lemma RenewalWithinLease(lease: nat, jitter: int)
    requires IsJitter(lease, jitter)
    ensures var r := RenewalDelay(lease, jitter);
      && (lease >= 4 ==> lease / 4 <= r <= lease / 2 + lease / 4 - 1 < lease)
      && (lease < 4 ==> r == lease / 2)
      && (r < lease <==> lease > 0)
  {
  }

  /** Every delay in that range can come up. */
  lemma EveryDelayOccurs(lease: nat, delay: int)
    requires lease >= 4 && lease / 2 - lease / 4 <= delay <= lease / 2 + lease / 4 - 1
    ensures IsJitter(lease, delay - lease / 2) && RenewalDelay(lease, delay - lease / 2) == delay
  {
  }

  /** A response with a finite lease sets the proxy's timer inside it, and when the timer fires the
      proxy renews the subscription it holds. */
  lemma RenewalIsSet(s: State, sid: Sid, lease: nat, jitter: int)
    requires s.subscribed && 4 <= lease < TWO_TO_32 / 2 && IsJitter(lease, jitter)
    ensures var t := GotResponse(s, HttpOk(Some(sid), Some(TimeoutHeader(lease))), jitter);
      && t.subscribed && t.sid == Some(sid)
      && t.renewal.Some? && lease / 4 <= t.renewal.value <= lease / 2 + lease / 4 - 1
      && Expire(t).requests == t.requests + [RenewRequest(sid)] && Expire(t).renewal == None
      && Expire(t).subscribed && Expire(t).sid == Some(sid)
  {
    LeaseIsAnnounced(lease);
    RenewalWithinLease(lease, jitter);
  }

  /** An infinite lease, or none, needs no renewal; a negative one counts as half an hour. */
  lemma OtherLeases(s: State, sid: Sid, hdr: string, jitter: int)
    requires s.subscribed
    ensures GotResponse(s, HttpOk(Some(sid), None), jitter).renewal == None
    ensures GotResponse(s, HttpOk(Some(sid), Some("infinite")), jitter).renewal == None
    ensures TimeoutHeader(0) == "infinite"
    ensures Atoi(hdr) < 0 ==>
      GotResponse(s, HttpOk(Some(sid), Some("Second-" + hdr)), jitter).renewal == Some(900 + jitter)
  {
    assert "infinite"[0] == 'i' && "Second-"[0] == 'S';
    assert ("Second-" + hdr)[..7] == "Second-" && ("Second-" + hdr)[7..] == hdr;
  }

  /** Where the exchange between the two stands: the publisher has restarted its timer, or the
      subscriber has its answer, and its own timer runs until `due`, if it was set. */
  datatype Phase =
    | Answering(handled: real)
    | Waiting(handled: real, response: real, due: Option<real>)

  datatype Clock = Clock(now: real, proxy: State, phase: Phase)
  {
    /** When the publisher's timer fires. */
    function Deadline(): real { phase.handled + SUBSCRIPTION_TIMEOUT as real }

    predicate TimerFires() { now >= Deadline() }

    /** Response delay and renewal delay so far are within the allowance. */
    predicate Prompt(allowance: real) {
      match phase
      case Answering(handled) => now - handled <= allowance
      case Waiting(_, response, due) =>
        response + (if due.Some? && now > due.value then now - due.value else 0.0) <= allowance
    }
  }

  datatype Tick =
    | Pass(seconds: real)
    | ResponseArrives(sid: Sid, jitter: int)
    | RenewalArrives

  predicate Enabled(c: Clock, t: Tick) {
    match t
    case Pass(seconds) => seconds >= 0.0
    case ResponseArrives(_, jitter) => c.phase.Answering? && IsJitter(SUBSCRIPTION_TIMEOUT, jitter)
    case RenewalArrives => c.phase.Waiting? && c.phase.due.Some? && c.now >= c.phase.due.value
  }

  /** The proxy takes the publisher's response; when its timer fires it renews, if it holds a SID. */
  function Advance(c: Clock, t: Tick): Clock
    requires Enabled(c, t)
  {
    match t
    case Pass(seconds) => c.(now := c.now + seconds)
    case ResponseArrives(sid, jitter) =>
      var proxy := GotResponse(c.proxy, HttpOk(Some(sid), Some(TimeoutHeader(SUBSCRIPTION_TIMEOUT))), jitter);
      var due := if proxy.renewal.None? then None else Some(c.now + proxy.renewal.value as real);
      Clock(c.now, proxy, Waiting(c.phase.handled, c.now - c.phase.handled, due))
    case RenewalArrives =>
      var proxy := Expire(c.proxy);
      if proxy.requests == c.proxy.requests then c.(proxy := proxy) else Clock(c.now, proxy, Answering(c.now))
  }

  /** Every state on the way is within the allowance. */
  ghost predicate PromptRun(c: Clock, ticks: seq<Tick>, allowance: real)
    decreases ticks
  {
    c.Prompt(allowance) &&
    (ticks == [] || (Enabled(c, ticks[0]) && PromptRun(Advance(c, ticks[0]), ticks[1..], allowance)))
  }

  ghost function Elapsed(c: Clock, ticks: seq<Tick>, allowance: real): Clock
    requires PromptRun(c, ticks, allowance)
    decreases ticks
  {
    if ticks == [] then c else Elapsed(Advance(c, ticks[0]), ticks[1..], allowance)
  }

  predicate ClockInv(c: Clock) {
    c.proxy.subscribed &&
    match c.phase
    case Answering(handled) => c.now >= handled
    case Waiting(handled, response, due) =>
      && response >= 0.0 && c.now >= handled + response && c.proxy.sid.Some?
      && due.Some? && due.value <= handled + response + 224.0
  }

  lemma AdvanceKeepsInv(c: Clock, t: Tick)
    requires ClockInv(c) && Enabled(c, t)
    ensures ClockInv(Advance(c, t))
  {
    if t.ResponseArrives? {
      RenewalIsSet(c.proxy, t.sid, SUBSCRIPTION_TIMEOUT, t.jitter);
    }
  }

  lemma {:induction false} PromptRunKeepsInv(c: Clock, ticks: seq<Tick>, allowance: real)
    requires ClockInv(c) && PromptRun(c, ticks, allowance)
    ensures ClockInv(Elapsed(c, ticks, allowance)) && Elapsed(c, ticks, allowance).Prompt(allowance)
    decreases ticks
  {
    if ticks != [] {
      AdvanceKeepsInv(c, ticks[0]);
      PromptRunKeepsInv(Advance(c, ticks[0]), ticks[1..], allowance);
    }
  }

  /** The publisher has just accepted or renewed the proxy's subscription. */
  function Asked(start: real, proxy: State): Clock { Clock(start, proxy, Answering(start)) }

  /** A subscription that is renewed is never timed out: as long as each response delay together
      with the renewal delay after it stays within 75 seconds, the 300-second timer never fires. */
  lemma LiveSubscriptionNeverExpires(start: real, proxy: State, ticks: seq<Tick>)
    requires proxy.subscribed && PromptRun(Asked(start, proxy), ticks, 75.0)
    ensures !Elapsed(Asked(start, proxy), ticks, 75.0).TimerFires()
  {
    PromptRunKeepsInv(Asked(start, proxy), ticks, 75.0);
  }

  /** A prompt run at whose end the publisher's timer fires. */
  ghost predicate TimedOut(c: Clock, ticks: seq<Tick>, allowance: real) {
    PromptRun(c, ticks, allowance) && Elapsed(c, ticks, allowance).TimerFires()
  }

  /** The 75 seconds leave just under one to spare: no run within the allowance fires the timer if
      and only if the allowance is less than 76 seconds. */
  lemma WhenAllowanceIsSafe(start: real, proxy: State, allowance: real)
    requires proxy.subscribed
    ensures (forall ticks :: !TimedOut(Asked(start, proxy), ticks, allowance)) <==> allowance < 76.0
  {
    var c := Asked(start, proxy);
    if allowance < 76.0 {
      forall ticks | PromptRun(c, ticks, allowance) ensures !TimedOut(c, ticks, allowance) {
        PromptRunKeepsInv(c, ticks, allowance);
      }
    } else {
      LatestRenewalIsLate(start, proxy, allowance);
    }
  }

  /** With the largest jitter the renewal is due after 224 s, and 76 s later the timer fires. */
  lemma LatestRenewalIsLate(start: real, proxy: State, allowance: real)
    requires proxy.subscribed && allowance >= 76.0
    ensures TimedOut(Asked(start, proxy), [ResponseArrives("uuid:1", 74), Pass(300.0)], allowance)
  {
    var c := Asked(start, proxy);
    var first := ResponseArrives("uuid:1", 74);
    var d := Advance(c, first);
    LeaseIsAnnounced(SUBSCRIPTION_TIMEOUT);
    assert d.phase == Waiting(start, 0.0, Some(start + 224.0));
    assert [first, Pass(300.0)][1..] == [Pass(300.0)];
    assert [Pass(300.0)][1..] == [];
    assert d.Prompt(allowance) && Advance(d, Pass(300.0)).Prompt(allowance);
    assert PromptRun(Advance(d, Pass(300.0)), [], allowance);
    assert PromptRun(d, [Pass(300.0)], allowance);
  }
}
