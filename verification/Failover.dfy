/** Callback failover: what a run of responses to concurrently pending NOTIFYs makes of them, given
    that they share one pointer into the callback list. */
module Failover {
  import opened Wrappers
  import opened Subscription

  /** A response to one of the pending NOTIFYs. */
  datatype Answer = Answer(id: nat, status: Status)

  /** Every answer in turn is for a NOTIFY that is pending at that moment. */
  ghost predicate Answerable(s: Sub, answers: seq<Answer>)
    requires s.PointerInList()
    decreases |answers|
  {
    answers == [] ||
    (s.HasPending(answers[0].id) &&
     match Respond(s, answers[0].id, answers[0].status)
     case None => answers[1..] == []
     case Some(t) => t.PointerInList() && Answerable(t, answers[1..]))
  }

  /** The subscription after the answers, if it is still in the table. */
  ghost function AfterAnswers(s: Sub, answers: seq<Answer>): Option<Sub>
    requires s.PointerInList() && Answerable(s, answers)
    decreases |answers|
  {
    if answers == [] then Some(s)
    else match Respond(s, answers[0].id, answers[0].status)
         case None => None
         case Some(t) => AfterAnswers(t, answers[1..])
  }

  /** Everything sent up to the end of the answers, or to the refusal that drops the subscription. */
  ghost function History(s: Sub, answers: seq<Answer>): seq<Attempt>
    requires s.PointerInList() && Answerable(s, answers)
    decreases |answers|
  {
    if answers == [] then s.attempts
    else match Respond(s, answers[0].id, answers[0].status)
         case None => s.attempts
         case Some(t) => History(t, answers[1..])
  }

  /** Each response lowers (NOTIFYs pending, callbacks left after the pointer) lexicographically. */
  lemma RespondDescends(s: Sub, id: nat, status: Status)
    requires s.PointerInList() && s.HasPending(id)
    ensures var r := Respond(s, id, status);
      r.Some? ==>
        && r.value.callbacks == s.callbacks
        && r.value.PointerInList()
        && (|r.value.pending| == |s.pending| - 1 ||
            (|r.value.pending| == |s.pending| && r.value.current == s.current + 1))
  {
    WithoutRemoves(s.pending, id);
  }

  /** n times k, by addition. */
  function Times(n: nat, k: nat): nat { if n == 0 then 0 else k + Times(n - 1, k) }

  lemma {:induction false} TimesIsProduct(n: nat, k: nat)
    ensures Times(n, k) == n * k
    decreases n
  {
    if n > 0 {
      TimesIsProduct(n - 1, k);
      assert n * k == (n - 1) * k + k;
    }
  }

  /** What is left when a list of k is tried through once for each of n NOTIFYs, the first of them
      from position c on. */
  function Left(n: nat, k: nat, c: nat): int {
    if n == 0 then 0 else k - c + Times(n - 1, k)
  }

  /** What a response leaves: one NOTIFY less, or the pointer one further on. */
  lemma LeftDescends(n: nat, k: nat, c: nat, n1: nat, c1: nat)
    requires n > 0 && c <= k && (n1 == n - 1 || (n1 == n && c1 == c + 1))
    ensures Left(n1, k, c1) + (if n1 == n then 1 else 0) <= Left(n, k, c)
    ensures c < k ==> Left(n1, k, c1) < Left(n, k, c)
  {
  }

  /** Failover terminates however the responses to the pending NOTIFYs interleave: altogether they
      are as many, at most, as if the list were tried through once for every pending NOTIFY, the
      first time from the pointer on; and the pointer never leaves the list. */
  lemma {:induction false} FailoverTerminates(s: Sub, answers: seq<Answer>)
    requires s.PointerInList() && Answerable(s, answers)
    ensures |answers| <= Left(|s.pending|, |s.callbacks|, s.current)
    ensures s.attempts <= History(s, answers)
    ensures |History(s, answers)| - |s.attempts| <= Left(|s.pending|, |s.callbacks| - 1, s.current)
    ensures var r := AfterAnswers(s, answers);
      r.Some? ==> r.value.PointerInList() && r.value.callbacks == s.callbacks && r.value.attempts == History(s, answers)
    decreases |answers|
  {
    if answers == [] {
      LeftIsNat(|s.pending|, |s.callbacks|, s.current);
      LeftIsNat(|s.pending|, |s.callbacks| - 1, s.current);
    } else {
      var first := answers[0];
      RespondDescends(s, first.id, first.status);
      RespondResends(s, first.id, first.status);
      match Respond(s, first.id, first.status)
      case None => LeftIsNat(|s.pending|, |s.callbacks| - 1, s.current);
      case Some(t) =>
        FailoverTerminates(t, answers[1..]);
        LeftDescends(|s.pending|, |s.callbacks|, s.current, |t.pending|, t.current);
        LeftDescends(|s.pending|, |s.callbacks| - 1, s.current, |t.pending|, t.current);
    }
  }

  lemma LeftIsNat(n: nat, k: nat, c: nat)
    requires c <= k
    ensures Left(n, k, c) >= 0
    ensures n > 0 && c < k ==> Left(n, k, c) >= 1
  {
  }

  /** In numbers: at most pending * |callbacks| responses come in, and they make at most
      pending * (|callbacks| - 1) resends, whether or not the last of them is a refusal. */
  lemma FailoverBounds(s: Sub, answers: seq<Answer>)
    requires s.PointerInList() && Answerable(s, answers)
    ensures |answers| <= |s.pending| * |s.callbacks|
    ensures |History(s, answers)| - |s.attempts| <= |s.pending| * (|s.callbacks| - 1)
  {
    FailoverTerminates(s, answers);
    TimesIsProduct(|s.pending|, |s.callbacks|);
    TimesIsProduct(|s.pending|, |s.callbacks| - 1);
  }

  /** A failed response to a subscription that is wanted: the next callback is tried, or after the
      last one the NOTIFY is given up. */
  lemma FailureTriesNext(s: Sub, id: nat)
    requires s.PointerInList() && s.HasPending(id) && !s.CanDelete()
    ensures var r := Respond(s, id, OtherFailure);
      && r.Some? && !r.value.CanDelete() && r.value.callbacks == s.callbacks && r.value.PointerInList()
      && if s.current + 1 < |s.callbacks| then
           r.value.current == s.current + 1 && |r.value.pending| == |s.pending|
           && |r.value.attempts| == |s.attempts| + 1
         else
           r.value.current == 0 && |r.value.pending| == |s.pending| - 1 && r.value.attempts == s.attempts
  {
    WithoutRemoves(s.pending, id);
  }

  lemma LeftNext(n: nat, k: nat, c: nat, n1: nat, c1: nat)
    requires n > 0 && if c < k then n1 == n && c1 == c + 1 else c == k && n1 == n - 1 && c1 == 0
    ensures Left(n, k, c) - Left(n1, k, c1) == if c < k then 1 else 0
  {
  }

  // ---------------------------------------------------------------- where the pointer stands

  /** The failures since the last success, on top of n before the first answer. */
  function FailuresSince(answers: seq<Answer>, n: nat): nat
    decreases |answers|
  {
    if answers == [] then n else FailuresSince(answers[1..], if answers[0].status == Successful then 0 else n + 1)
  }

  /** One more goes to the next callback, round the list. */
  lemma NextRound(n: nat, k: nat)
    requires k > 0
    ensures (n + 1) % k == if n % k + 1 < k then n % k + 1 else 0
  {
    var q, r := n / k, n % k;
    assert n == q * k + r;
    if r + 1 < k {
      assert n + 1 == q * k + (r + 1);
      Remainder(n + 1, k, q, r + 1);
    } else {
      assert n + 1 == (q + 1) * k + 0;
      Remainder(n + 1, k, q + 1, 0);
    }
  }

  lemma Remainder(m: nat, k: nat, q: nat, r: nat)
    requires r < k && m == q * k + r
    ensures m % k == r
  {
    var d := m / k - q;
    assert m == (m / k) * k + m % k;
    assert (m / k) * k == q * k + d * k;
    assert d >= 1 ==> d * k >= k;
    assert d <= -1 ==> d * k + k <= 0;
  }

  /** The pointer counts the failures since the last success, round the callback list: a success
      takes it back to the first callback. */
  lemma {:induction false} PointerCounts(s: Sub, answers: seq<Answer>, n: nat)
    requires s.PointerInList() && Answerable(s, answers) && s.current == n % |s.callbacks|
    ensures var r := AfterAnswers(s, answers);
      r.Some? ==> r.value.current == FailuresSince(answers, n) % |s.callbacks|
    decreases |answers|
  {
    if answers != [] {
      var first := answers[0];
      RespondDescends(s, first.id, first.status);
      NextRound(n, |s.callbacks|);
      match Respond(s, first.id, first.status)
      case None =>
      case Some(t) => PointerCounts(t, answers[1..], if first.status == Successful then 0 else n + 1);
    }
  }

  predicate AllFail(answers: seq<Answer>) {
    forall i :: 0 <= i < |answers| ==> answers[i].status == OtherFailure
  }

  /** The bound on resends is met in total when all responses are failures; how the resends are
      shared out among the NOTIFYs is another matter. */
  lemma {:induction false} FailoverBoundIsMet(s: Sub, answers: seq<Answer>)
    requires s.PointerInList() && !s.CanDelete() && Answerable(s, answers) && AllFail(answers)
    requires AfterAnswers(s, answers).Some? && AfterAnswers(s, answers).value.pending == []
    ensures |History(s, answers)| - |s.attempts| == Left(|s.pending|, |s.callbacks| - 1, s.current)
    decreases |answers|
  {
    if answers != [] {
      FailureTriesNext(s, answers[0].id);
      var t := Respond(s, answers[0].id, answers[0].status).value;
      FailoverBoundIsMet(t, answers[1..]);
      LeftNext(|s.pending|, |s.callbacks| - 1, s.current, |t.pending|, t.current);
    }
  }

  // ---------------------------------------------------------------- what becomes of one NOTIFY

  /** A resend of a NOTIFY: its place in the attempt history and in the callback list. */
  datatype Try = Try(id: nat, position: nat)

  /** The resends of one NOTIFY, and whether it was given up: reported as failed for good. */
  datatype Fate = Fate(tries: seq<Try>, givenUp: bool)

  /** Follow NOTIFY `id`, across its resends, through a run of answers. */
  ghost function Follow(s: Sub, answers: seq<Answer>, id: nat): Fate
    requires s.PointerInList() && Answerable(s, answers)
    decreases |answers|
  {
    if answers == [] then Fate([], false)
    else
      match Respond(s, answers[0].id, answers[0].status)
      case None => Fate([], false)
      case Some(t) =>
        if answers[0].id != id then Follow(t, answers[1..], id)
        else if answers[0].status == Successful then Fate([], false)
        else if s.current + 1 == |s.callbacks| then Fate([], true)
        else if s.CanDelete() then Fate([], false)
        else
          var next := Follow(t, answers[1..], |s.attempts|);
          next.(tries := [Try(|s.attempts|, s.current + 1)] + next.tries)
  }

  predicate TriedAt(tries: seq<Try>, position: nat) {
    exists t :: t in tries && t.position == position
  }

  /** `at` tells, for every pending NOTIFY, the callback it was last sent to. */
  predicate SentTo(s: Sub, at: map<nat, nat>) {
    forall p :: p in s.pending ==>
      && p.id in at && at[p.id] < |s.callbacks|
      && p.id < |s.attempts| && s.attempts[p.id].url == s.callbacks[at[p.id]]
  }

  /** A run of answers in which a NOTIFY is given up although a callback after the one it was last
      sent to was not tried. */
  ghost predicate Skips(s: Sub, at: map<nat, nat>, answers: seq<Answer>, id: nat)
    requires s.PointerInList() && SentTo(s, at)
  {
    && (exists p :: p in s.pending && p.id == id) && Answerable(s, answers)
    && Follow(s, answers, id).givenUp
    && exists i :: at[id] < i < |s.callbacks| && !TriedAt(Follow(s, answers, id).tries, i)
  }

  /** Every pending NOTIFY has its own place in the attempt history. */
  predicate Booked(s: Sub) {
    DistinctIds(s.pending) && forall p :: p in s.pending ==> p.id < |s.attempts|
  }

  lemma {:induction false} LookupIs(ps: seq<Pending>, p: Pending)
    requires DistinctIds(ps) && p in ps
    ensures (exists i :: 0 <= i < |ps| && ps[i].id == p.id) && Lookup(ps, p.id) == p
    decreases |ps|
  {
    if ps[0] != p {
      LookupIs(ps[1..], p);
      var i :| 0 <= i < |ps| && ps[i] == p;
    }
  }

  lemma {:induction false} OthersStay(ps: seq<Pending>, p: Pending, q: Pending)
    requires q in ps && q != p
    ensures q in Without(ps, p)
  {
    if ps[0] != p && ps[0] != q {
      OthersStay(ps[1..], p, q);
    }
  }

  /** Another callback is tried for NOTIFY p. */
  predicate Resent(s: Sub, status: Status) {
    status == OtherFailure && s.current + 1 < |s.callbacks| && !s.CanDelete()
  }

  /** What is pending after the response to NOTIFY p: the others, and p again if it is resent. */
  lemma AfterResponse(s: Sub, p: Pending, status: Status)
    requires s.PointerInList() && Booked(s) && p in s.pending
    ensures s.HasPending(p.id)
    ensures var r := Respond(s, p.id, status);
      && (r.None? <==> status == PreconditionFailed)
      && (r.Some? ==>
            && r.value.PointerInList() && r.value.callbacks == s.callbacks && Booked(r.value)
            && (forall q :: q in s.pending && q != p ==> q in r.value.pending)
            && (Resent(s, status) ==>
                  && r.value.current == s.current + 1 && !r.value.CanDelete()
                  && |r.value.pending| == |s.pending| && Pending(|s.attempts|, p.body) in r.value.pending
                  && r.value.attempts ==
                       s.attempts + [Attempt(s.callbacks[s.current + 1], s.seqNo, p.body, Origin.Failover)])
            && (!Resent(s, status) ==> r.value.attempts == s.attempts && |r.value.pending| == |s.pending| - 1))
  {
    LookupIs(s.pending, p);
    WithoutRemoves(s.pending, p.id);
    forall q | q in s.pending && q != p ensures q in Without(s.pending, p) {
      OthersStay(s.pending, p, q);
    }
  }

  /** What is followed is really sent: every try stands in the history, with the callback's address
      and the NOTIFY's own body. */
  lemma {:induction false} TriesAreSent(s: Sub, answers: seq<Answer>, p: Pending)
    requires s.PointerInList() && Booked(s) && p in s.pending && Answerable(s, answers)
    ensures forall t :: t in Follow(s, answers, p.id).tries ==>
      && t.id < |History(s, answers)| && t.position < |s.callbacks|
      && var a := History(s, answers)[t.id];
         a.url == s.callbacks[t.position] && a.body == p.body && a.origin == Origin.Failover
    decreases |answers|
  {
    if answers != [] {
      LookupFinds(s.pending, answers[0].id);
      var q := Lookup(s.pending, answers[0].id);
      AfterResponse(s, q, answers[0].status);
      match Respond(s, q.id, answers[0].status)
      case None =>
      case Some(t) =>
        if q.id != p.id {
          TriesAreSent(t, answers[1..], p);
        } else if Resent(s, answers[0].status) {
          LookupIs(s.pending, p);
          TriesAreSent(t, answers[1..], Pending(|s.attempts|, p.body));
          FailoverTerminates(t, answers[1..]);
        }
    }
  }

  /** A NOTIFY that is pending alone is tried at every callback after the pointer's before it is
      given up. */
  lemma {:induction false} AloneIsTried(s: Sub, answers: seq<Answer>, p: Pending, i: nat)
    requires s.PointerInList() && !s.CanDelete() && Booked(s) && s.pending == [p] && Answerable(s, answers)
    requires s.current < i < |s.callbacks|
    ensures Follow(s, answers, p.id).givenUp ==> TriedAt(Follow(s, answers, p.id).tries, i)
    decreases |answers|
  {
    if answers != [] {
      assert answers[0].id == p.id;
      AfterResponse(s, p, answers[0].status);
      if Resent(s, answers[0].status) {
        var t, again := Respond(s, p.id, OtherFailure).value, Pending(|s.attempts|, p.body);
        var fate, next := Follow(s, answers, p.id), Follow(t, answers[1..], again.id);
        if next.givenUp {
          assert fate.tries[0] == Try(|s.attempts|, s.current + 1);
          if i > s.current + 1 {
            AloneIsTried(t, answers[1..], again, i);
            var try :| try in next.tries && try.position == i;
            assert try in fate.tries;
          }
        }
      }
    }
  }

  /** A failure at the front of a run. */
  lemma FailFirst(s: Sub, p: Pending, rest: seq<Answer>, id: nat)
    requires s.PointerInList() && !s.CanDelete() && Booked(s) && p in s.pending && s.HasPending(p.id)
    requires var t := Respond(s, p.id, OtherFailure); t.Some? && t.value.PointerInList() && Answerable(t.value, rest)
    ensures var t := Respond(s, p.id, OtherFailure).value;
      var answers := [Answer(p.id, OtherFailure)] + rest;
      && Answerable(s, answers) && History(s, answers) == History(t, rest)
      && Follow(s, answers, id) ==
           if p.id != id then Follow(t, rest, id)
           else if s.current + 1 == |s.callbacks| then Fate([], true)
           else
             var next := Follow(t, rest, |s.attempts|);
             next.(tries := [Try(|s.attempts|, s.current + 1)] + next.tries)
  {
    assert ([Answer(p.id, OtherFailure)] + rest)[1..] == rest;
  }

  /** Of two pending NOTIFYs one can use up the list, so that the other is given up at once. */
  lemma OneUsesUpTheList(s: Sub, p: Pending, q: Pending) returns (answers: seq<Answer>)
    requires s.PointerInList() && !s.CanDelete() && Booked(s) && p in s.pending && q in s.pending && p.id != q.id
    ensures Answerable(s, answers) && Follow(s, answers, q.id) == Fate([], true)
    decreases |s.callbacks| - s.current
  {
    if s.current + 1 == |s.callbacks| {
      AfterResponse(s, q, OtherFailure);
      FailFirst(s, q, [], q.id);
      answers := [Answer(q.id, OtherFailure)] + [];
    } else {
      AfterResponse(s, p, OtherFailure);
      var t := Respond(s, p.id, OtherFailure).value;
      var rest := OneUsesUpTheList(t, Pending(|s.attempts|, p.body), q);
      FailFirst(s, p, rest, q.id);
      answers := [Answer(p.id, OtherFailure)] + rest;
    }
  }

  /** A NOTIFY can fail at every callback after the pointer's, and is tried at no other. */
  lemma FailsToTheEnd(s: Sub, p: Pending) returns (answers: seq<Answer>)
    requires s.PointerInList() && !s.CanDelete() && Booked(s) && p in s.pending
    ensures Answerable(s, answers) && Follow(s, answers, p.id).givenUp
    ensures forall t :: t in Follow(s, answers, p.id).tries ==> t.position > s.current
    decreases |s.callbacks| - s.current
  {
    AfterResponse(s, p, OtherFailure);
    if s.current + 1 == |s.callbacks| {
      FailFirst(s, p, [], p.id);
      answers := [Answer(p.id, OtherFailure)] + [];
    } else {
      var t := Respond(s, p.id, OtherFailure).value;
      var rest := FailsToTheEnd(t, Pending(|s.attempts|, p.body));
      FailFirst(s, p, rest, p.id);
      answers := [Answer(p.id, OtherFailure)] + rest;
    }
  }

  /** Nothing can go wrong: all pending NOTIFYs were last sent to the last callback, or the only one
      was not sent to a callback before the pointer's. */
  predicate NothingToSkip(s: Sub, at: map<nat, nat>)
    requires SentTo(s, at)
  {
    || (forall p :: p in s.pending ==> at[p.id] + 1 == |s.callbacks|)
    || (|s.pending| == 1 && (assert s.pending[0] in s.pending; at[s.pending[0].id] >= s.current))
  }

  /** A NOTIFY is tried at every callback after the one it was last sent to before it is given up,
      whatever the responses are and however they interleave, if and only if nothing can go wrong:
      NOTIFYs pending together share the pointer, and a pointer ahead of a NOTIFY leaves callbacks
      out. */
  lemma WhenFailoverIsThorough(s: Sub, at: map<nat, nat>)
    requires s.PointerInList() && !s.CanDelete() && Booked(s) && SentTo(s, at)
    ensures (forall answers, id :: !Skips(s, at, answers, id)) <==> NothingToSkip(s, at)
  {
    if NothingToSkip(s, at) {
      forall answers, id | Answerable(s, answers) ensures !Skips(s, at, answers, id) {
        NothingIsSkipped(s, at, answers, id);
      }
    } else {
      var answers, id := SomethingIsSkipped(s, at);
    }
  }

  lemma NothingIsSkipped(s: Sub, at: map<nat, nat>, answers: seq<Answer>, id: nat)
    requires s.PointerInList() && !s.CanDelete() && Booked(s) && SentTo(s, at) && NothingToSkip(s, at)
    ensures !Skips(s, at, answers, id)
  {
    if |s.pending| == 1 && s.pending[0].id == id && Answerable(s, answers) && at[id] >= s.current {
      forall i | at[id] < i < |s.callbacks| && Follow(s, answers, id).givenUp
        ensures TriedAt(Follow(s, answers, id).tries, i)
      {
        AloneIsTried(s, answers, s.pending[0], i);
      }
    }
  }

  lemma SomethingIsSkipped(s: Sub, at: map<nat, nat>) returns (answers: seq<Answer>, id: nat)
    requires s.PointerInList() && !s.CanDelete() && Booked(s) && SentTo(s, at) && !NothingToSkip(s, at)
    ensures Skips(s, at, answers, id)
  {
    var p :| p in s.pending && at[p.id] + 1 < |s.callbacks|;
    id := p.id;
    if |s.pending| == 1 {
      answers := FailsToTheEnd(s, p);
    } else {
      var q := if s.pending[0] == p then s.pending[1] else s.pending[0];
      assert q in s.pending && q.id != p.id;
      answers := OneUsesUpTheList(s, q, p);
    }
    assert !TriedAt(Follow(s, answers, id).tries, at[id] + 1);
  }

  /** In particular when all of them were last sent to the pointer's callback: then at most one may
      be pending, or the pointer must be at the last callback. */
  lemma WhenAllAreAtThePointer(s: Sub, at: map<nat, nat>)
    requires s.PointerInList() && SentTo(s, at) && forall p :: p in s.pending ==> at[p.id] == s.current
    ensures NothingToSkip(s, at) <==> |s.pending| <= 1 || s.current + 1 == |s.callbacks|
  {
    if s.pending != [] {
      assert s.pending[0] in s.pending;
    }
  }

  // ---------------------------------------------------------------- a flush neglected

  lemma FailedIs(s: Sub, p: Pending, others: seq<Pending>)
    requires s.PointerInList() && !s.CanDelete() && Booked(s)
    requires s.pending == [p] + others || (s.pending == others + [p] && |others| == 1)
    ensures s.HasPending(p.id) && p in s.pending
    ensures Respond(s, p.id, OtherFailure) == Some(
      if s.current + 1 < |s.callbacks| then Notify(s.(current := s.current + 1, pending := others), p.body, Failover)
      else s.(current := 0, pending := others))
  {
    assert p in s.pending;
    LookupIs(s.pending, p);
    if s.pending == [p] + others {
      assert s.pending[1..] == others;
    } else {
      assert s.pending[0] == others[0] && s.pending[1..] == [p] && [p][1..] == [];
      assert s.pending[0].id != s.pending[1].id;
      assert Without(s.pending, p) == [others[0]] + Without([p], p) == others;
    }
  }

  function Fail(id: nat): Answer { Answer(id, OtherFailure) }

  /** The initial state and a first flush, both pending at the first of two callbacks. */
  function TwoPending(b0: PropertySet, b1: PropertySet): Sub {
    Notify(Notify(NewSub(["a", "b"], 0), b0, InitialState), b1, Flush)
  }

  lemma InitialStateFails(b0: PropertySet, b1: PropertySet)
    ensures var s := TwoPending(b0, b1);
      && s.PointerInList() && !s.CanDelete() && Booked(s) && Pending(0, b0) in s.pending && s.HasPending(0)
      && |s.attempts| == 2 && |s.callbacks| == 2 && s.current == 0
      && var r := Respond(s, 0, OtherFailure);
         && r.Some? && r.value.current == 1 && r.value.pending == [Pending(2, b0), Pending(1, b1)]
         && |r.value.attempts| == 3 && Booked(r.value) && |r.value.callbacks| == 2 && !r.value.CanDelete()
  {
    var s := TwoPending(b0, b1);
    assert s.pending == [Pending(1, b1)] + [Pending(0, b0)];
    FailedIs(s, Pending(0, b0), [Pending(1, b1)]);
  }

  /** From there, with the initial state resent and the pointer at the last callback. */
  lemma FlushFailsNext(t: Sub, b0: PropertySet, b1: PropertySet)
    requires |t.callbacks| == 2 && t.current == 1 && !t.CanDelete() && Booked(t) && |t.attempts| == 3
    requires t.pending == [Pending(2, b0), Pending(1, b1)]
    ensures var answers := [Fail(1)] + ([Fail(2)] + ([Fail(3)] + []));
      && Answerable(t, answers) && |History(t, answers)| == 4
      && Follow(t, answers, 1) == Fate([], true) && Follow(t, answers, 2) == Fate([Try(3, 1)], true)
  {
    assert t.pending == [Pending(2, b0)] + [Pending(1, b1)];
    FailedIs(t, Pending(1, b1), [Pending(2, b0)]);
    var u := Respond(t, 1, OtherFailure).value;
    assert u.pending == [Pending(2, b0)] + [] && u.current == 0;
    FailedIs(u, Pending(2, b0), []);
    var v := Respond(u, 2, OtherFailure).value;
    assert v.pending == [Pending(3, b0)] + [] && v.current == 1;
    FailedIs(v, Pending(3, b0), []);
    FailFirst(v, Pending(3, b0), [], 3);
    FailFirst(u, Pending(2, b0), [Fail(3)] + [], 2);
    FailFirst(t, Pending(1, b1), [Fail(2)] + ([Fail(3)] + []), 1);
    FailFirst(t, Pending(1, b1), [Fail(2)] + ([Fail(3)] + []), 2);
  }

  /** When everything fails, the two resends allowed are made, but both are the initial state's, to
      the second callback; the flush is given up without having been sent there. */
  lemma FlushIsNeglected(b0: PropertySet, b1: PropertySet)
    ensures var s := TwoPending(b0, b1);
      var answers := [Fail(0)] + ([Fail(1)] + ([Fail(2)] + ([Fail(3)] + [])));
      && s.PointerInList() && Answerable(s, answers) && |History(s, answers)| == |s.attempts| + 2
      && Follow(s, answers, 0) == Fate([Try(2, 1), Try(3, 1)], true)
      && Follow(s, answers, 1) == Fate([], true)
  {
    InitialStateFails(b0, b1);
    var s := TwoPending(b0, b1);
    var rest := [Fail(1)] + ([Fail(2)] + ([Fail(3)] + []));
    FlushFailsNext(Respond(s, 0, OtherFailure).value, b0, b1);
    FailFirst(s, Pending(0, b0), rest, 0);
    FailFirst(s, Pending(0, b0), rest, 1);
  }
}
