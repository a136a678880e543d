/** Calling the callbacks of a state variable while they add and remove callbacks.

    The proxy walks a linked list with a `next_emit` pointer that `add_notify` and `remove_notify`
    keep valid.  `Board` is what that walk stands for: a list of registered callbacks and a queue
    of those still to be called. */
module DispatchQueue {
  import opened Wrappers

  /** A list node: `id` is the identity of the node, `key` the callback and its user data. */
  datatype Callback = Callback(id: nat, key: string)

  datatype Op = Add(key: string) | Remove(key: string)

  datatype Board = Board(
    callbacks: seq<Callback>,    // registered now, oldest first
    todo: seq<Callback>,         // still to be called in this emission
    nextId: nat,
    registered: seq<Callback>,   // registered at the start of the emission or since
    skipped: set<Callback>,      // removed before their turn
    called: seq<Callback>)       // called in this emission

  /** The callbacks from the node `next` on. */
  function From(callbacks: seq<Callback>, next: Option<nat>): seq<Callback> {
    if next.None? || callbacks == [] then []
    else if callbacks[0].id == next.value then callbacks
    else From(callbacks[1..], next)
  }

  /** Where the first callback with this key stands; the length if there is none. */
  function Find(callbacks: seq<Callback>, key: string): nat
    ensures Find(callbacks, key) <= |callbacks|
  {
    if callbacks == [] || callbacks[0].key == key then 0 else 1 + Find(callbacks[1..], key)
  }

  function Apply(b: Board, op: Op): Board {
    match op
    case Add(key) =>
      var c := Callback(b.nextId, key);
      b.(callbacks := b.callbacks + [c], todo := b.todo + [c], nextId := b.nextId + 1,
         registered := b.registered + [c])
    case Remove(key) =>
      var i := Find(b.callbacks, key);
      if i == |b.callbacks| then b
      else
        var c := b.callbacks[i];
        b.(callbacks := Without(b.callbacks, c), todo := Without(b.todo, c),
           skipped := if c in b.todo then b.skipped + {c} else b.skipped)
  }

  /** What one callback does.  `Dangling` is the removal of the last callback: the proxy frees the
      list while the walk still holds it. */
  datatype Outcome = Alive(board: Board) | Dangling

  function ApplyAll(b: Board, ops: seq<Op>): Outcome
    decreases ops
  {
    if ops == [] then Alive(b)
    else
      var next := Apply(b, ops[0]);
      if next.callbacks == [] && b.callbacks != [] then Dangling else ApplyAll(next, ops[1..])
  }

  function Adds(ops: seq<Op>): nat {
    if ops == [] then 0 else (if ops[0].Add? then 1 else 0) + Adds(ops[1..])
  }

  function AllAdds(script: seq<seq<Op>>): nat {
    if script == [] then 0 else Adds(script[0]) + AllAdds(script[1..])
  }

  lemma {:induction false} ApplyAllTodo(b: Board, ops: seq<Op>)
    ensures var r := ApplyAll(b, ops); r.Alive? ==> |r.board.todo| <= |b.todo| + Adds(ops)
    decreases ops
  {
    if ops != [] {
      if ops[0].Remove? {
        var i := Find(b.callbacks, ops[0].key);
        if i < |b.callbacks| {
          WithoutLength(b.todo, b.callbacks[i]);
        }
      }
      ApplyAllTodo(Apply(b, ops[0]), ops[1..]);
    }
  }

  /** Call what is to be called; the i-th callback called performs the i-th list of operations. */
  function Walk(b: Board, script: seq<seq<Op>>): Outcome
    decreases |b.todo| + AllAdds(script)
  {
    if b.todo == [] then Alive(b)
    else
      var c := Pop(b);
      var ops := First(script);
      var r := ApplyAll(c, ops);
      ApplyAllTodo(c, ops);
      if r.Dangling? then Dangling else Walk(r.board, Rest(script))
  }

  /** What the next callback called does, and what those after it do; nothing when it runs out. */
  function First(script: seq<seq<Op>>): seq<Op> { if script == [] then [] else script[0] }

  function Rest(script: seq<seq<Op>>): (rest: seq<seq<Op>>)
    ensures AllAdds(script) == Adds(First(script)) + AllAdds(rest)
  {
    if script == [] then [] else script[1..]
  }

  /** The first callback of the queue is called. */
  function Pop(b: Board): Board
    requires b.todo != []
  {
    b.(todo := b.todo[1..], called := b.called + [b.todo[0]])
  }

  function Start(b: Board): Board {
    b.(todo := b.callbacks, registered := b.callbacks, skipped := {}, called := [])
  }

  /** One emission of the variable, from whatever state the list is in. */
  function Emission(b: Board, script: seq<seq<Op>>): Outcome { Walk(Start(b), script) }

  // ---------------------------------------------------------------- what an emission promises

  function Keep(s: seq<Callback>, skipped: set<Callback>): seq<Callback> {
    if s == [] then []
    else
      var init, last := s[..|s| - 1], s[|s| - 1];
      Keep(init, skipped) + if last in skipped then [] else [last]
  }

  /** Nodes are kept in the order they were added. */
  predicate Ascending(s: seq<Callback>) {
    forall i, j :: 0 <= i < j < |s| ==> s[i].id < s[j].id
  }

  predicate Suffix(s: seq<Callback>, whole: seq<Callback>) {
    |s| <= |whole| && s == whole[|whole| - |s|..]
  }

  predicate ListInv(b: Board) {
    && Ascending(b.callbacks)
    && forall c :: c in b.callbacks ==> c.id < b.nextId
  }

  predicate EmitInv(b: Board) {
    && ListInv(b)
    && Suffix(b.todo, b.callbacks)
    && Ascending(b.registered)
    && (forall c :: c in b.registered ==> c.id < b.nextId)
    && (forall c :: c in b.callbacks ==> c in b.registered)
    && (forall c :: c in b.skipped ==> c in b.registered && c !in b.callbacks)
    && Keep(b.registered, b.skipped) == b.called + b.todo
  }

  lemma KeepSnoc(s: seq<Callback>, c: Callback, skipped: set<Callback>)
    ensures Keep(s + [c], skipped) == if c in skipped then Keep(s, skipped) else Keep(s, skipped) + [c]
  {
    assert (s + [c])[..|s|] == s;
  }

  lemma {:induction false} KeepNone(s: seq<Callback>)
    ensures Keep(s, {}) == s
    decreases |s|
  {
    if s != [] {
      KeepNone(s[..|s| - 1]);
      assert s == s[..|s| - 1] + [s[|s| - 1]];
    }
  }

  lemma {:induction false} KeepMembers(s: seq<Callback>, skipped: set<Callback>)
    ensures forall c :: c in Keep(s, skipped) <==> c in s && c !in skipped
    ensures Ascending(s) ==> Ascending(Keep(s, skipped))
    decreases |s|
  {
    if s != [] {
      var init, last := s[..|s| - 1], s[|s| - 1];
      KeepMembers(init, skipped);
      assert s == init + [last];
      if Ascending(s) {
        forall c | c in init ensures c.id < last.id {
        }
      }
    }
  }

  lemma {:induction false} WithoutSnoc(s: seq<Callback>, last: Callback, c: Callback)
    requires c != last
    ensures Without(s + [last], c) == Without(s, c) + [last]
    decreases |s|
  {
    if s == [] {
      assert [last][1..] == [];
    } else {
      assert (s + [last])[1..] == s[1..] + [last];
      if s[0] != c {
        WithoutSnoc(s[1..], last, c);
      }
    }
  }

  lemma {:induction false} WithoutLast(s: seq<Callback>, c: Callback)
    requires c !in s
    ensures Without(s + [c], c) == s
    decreases |s|
  {
    if s == [] {
      assert [c][1..] == [];
    } else {
      assert (s + [c])[1..] == s[1..] + [c];
      WithoutLast(s[1..], c);
    }
  }

  lemma NotInInit(s: seq<Callback>)
    requires s != [] && Ascending(s)
    ensures s[|s| - 1] !in s[..|s| - 1] && Ascending(s[..|s| - 1])
  {
  }

  lemma KeepLess(s: seq<Callback>, skipped: set<Callback>, c: Callback)
    requires c !in s
    ensures Keep(s, skipped + {c}) == Keep(s, skipped)
    decreases |s|
  {
    if s != [] {
      assert s[|s| - 1] in s;
      KeepLess(s[..|s| - 1], skipped, c);
    }
  }

  lemma KeepSkipLast(init: seq<Callback>, skipped: set<Callback>, c: Callback)
    requires c !in init
    ensures Keep(init + [c], skipped + {c}) == Without(Keep(init + [c], skipped), c)
  {
    KeepSnoc(init, c, skipped);
    KeepSnoc(init, c, skipped + {c});
    KeepLess(init, skipped, c);
    KeepMembers(init, skipped);
    if c in skipped {
      WithoutLength(Keep(init, skipped), c);
    } else {
      WithoutLast(Keep(init, skipped), c);
    }
  }

  /** Skipping one more callback takes just that one out of what is kept. */
  lemma {:induction false} KeepSkip(s: seq<Callback>, skipped: set<Callback>, c: Callback)
    requires Ascending(s)
    ensures Keep(s, skipped + {c}) == Without(Keep(s, skipped), c)
    decreases |s|
  {
    if s != [] {
      var init, last := s[..|s| - 1], s[|s| - 1];
      NotInInit(s);
      assert s == init + [last];
      if last == c {
        KeepSkipLast(init, skipped, c);
      } else {
        KeepSkip(init, skipped, c);
        KeepSnoc(init, last, skipped);
        KeepSnoc(init, last, skipped + {c});
        if last !in skipped {
          WithoutSnoc(Keep(init, skipped), last, c);
        }
      }
    }
  }

  lemma {:induction false} WithoutMembers(s: seq<Callback>, c: Callback)
    requires Ascending(s)
    ensures forall x :: x in Without(s, c) <==> x in s && x != c
    ensures Ascending(Without(s, c))
    decreases |s|
  {
    if s != [] {
      WithoutMembers(s[1..], c);
      assert s == [s[0]] + s[1..];
      forall x | x in s[1..] ensures s[0].id < x.id {
      }
      if s[0] != c {
        AscendingCons(s[0], Without(s[1..], c));
      }
    }
  }

  lemma AscendingCons(c: Callback, s: seq<Callback>)
    requires Ascending(s) && forall x :: x in s ==> c.id < x.id
    ensures Ascending([c] + s)
  {
    forall j | 0 <= j < |s| ensures c.id < s[j].id {
      assert s[j] in s;
    }
  }

  lemma SuffixRest(s: seq<Callback>, whole: seq<Callback>)
    requires Suffix(s, whole) && |s| < |whole| && Ascending(whole)
    ensures Suffix(s, whole[1..]) && Ascending(whole[1..]) && whole[0] !in s
  {
    forall x | x in s ensures x != whole[0] {
      var i :| 0 <= i < |s| && s[i] == x;
      assert x == whole[|whole| - |s| + i];
    }
  }

  lemma {:induction false} WithoutSuffix(s: seq<Callback>, whole: seq<Callback>, c: Callback)
    requires Ascending(whole) && Suffix(s, whole)
    ensures Suffix(Without(s, c), Without(whole, c))
    decreases |whole|
  {
    if |s| == |whole| {
      assert s == whole;
    } else {
      SuffixRest(s, whole);
      if whole[0] == c {
        WithoutLength(s, c);
      } else {
        WithoutSuffix(s, whole[1..], c);
        SuffixCons(Without(s, c), Without(whole[1..], c), whole[0]);
      }
    }
  }

  lemma SuffixCons(s: seq<Callback>, whole: seq<Callback>, c: Callback)
    requires Suffix(s, whole)
    ensures Suffix(s, [c] + whole)
  {
  }

  lemma SuffixMembers(s: seq<Callback>, whole: seq<Callback>)
    requires Suffix(s, whole)
    ensures forall x :: x in s ==> x in whole
  {
  }

  lemma {:induction false} FindFinds(callbacks: seq<Callback>, key: string)
    ensures var i := Find(callbacks, key);
      && (i < |callbacks| ==> callbacks[i].key == key)
      && forall j :: 0 <= j < i ==> callbacks[j].key != key
  {
    if callbacks != [] && callbacks[0].key != key {
      FindFinds(callbacks[1..], key);
    }
  }

  // ---------------------------------------------------------------- every operation keeps it

  lemma AddKeepsInv(b: Board, key: string)
    requires EmitInv(b)
    ensures EmitInv(Apply(b, Add(key)))
  {
    var c := Callback(b.nextId, key);
    KeepSnoc(b.registered, c, b.skipped);
    assert b.called + (b.todo + [c]) == (b.called + b.todo) + [c];
    var t := Apply(b, Add(key));
    assert Suffix(t.todo, t.callbacks);
  }

  lemma {:induction false} WithoutAfter(a: seq<Callback>, s: seq<Callback>, c: Callback)
    requires c !in a
    ensures Without(a + s, c) == a + Without(s, c)
    decreases |a|
  {
    if a == [] {
      assert a + s == s;
    } else {
      assert (a + s)[1..] == a[1..] + s;
      WithoutAfter(a[1..], s, c);
    }
  }

  /** What is still to be called has not been called. */
  lemma NotCalledYet(b: Board, c: Callback)
    requires EmitInv(b) && c in b.todo
    ensures c !in b.called
  {
    KeepMembers(b.registered, b.skipped);
    var k := Keep(b.registered, b.skipped);
    var j :| 0 <= j < |b.todo| && b.todo[j] == c;
    assert k[|b.called| + j] == c;
    forall i | 0 <= i < |b.called| ensures b.called[i] != c {
      assert k[i] == b.called[i];
    }
  }

  lemma RemoveKeepsKept(b: Board, c: Callback)
    requires EmitInv(b) && c in b.callbacks
    ensures var skipped := if c in b.todo then b.skipped + {c} else b.skipped;
      Keep(b.registered, skipped) == b.called + Without(b.todo, c)
  {
    if c in b.todo {
      NotCalledYet(b, c);
      KeepSkip(b.registered, b.skipped, c);
      WithoutAfter(b.called, b.todo, c);
    } else {
      WithoutLength(b.todo, c);
    }
  }

  lemma RemoveKeepsInv(b: Board, key: string)
    requires EmitInv(b)
    ensures EmitInv(Apply(b, Remove(key)))
  {
    var i := Find(b.callbacks, key);
    if i < |b.callbacks| {
      var c := b.callbacks[i];
      WithoutMembers(b.callbacks, c);
      WithoutSuffix(b.todo, b.callbacks, c);
      RemoveKeepsKept(b, c);
    }
  }

  lemma ApplyKeepsInv(b: Board, op: Op)
    requires EmitInv(b)
    ensures EmitInv(Apply(b, op)) && Apply(b, op).called == b.called
  {
    if op.Add? {
      AddKeepsInv(b, op.key);
    } else {
      RemoveKeepsInv(b, op.key);
    }
  }

  lemma {:induction false} ApplyAllKeepsInv(b: Board, ops: seq<Op>)
    requires EmitInv(b)
    ensures var r := ApplyAll(b, ops); r.Alive? ==> EmitInv(r.board) && r.board.called == b.called
    decreases ops
  {
    if ops != [] {
      ApplyKeepsInv(b, ops[0]);
      ApplyAllKeepsInv(Apply(b, ops[0]), ops[1..]);
    }
  }

  lemma CallKeepsInv(b: Board)
    requires EmitInv(b) && b.todo != []
    ensures EmitInv(Pop(b))
    ensures b.todo[0] in b.callbacks
  {
    assert b.called + [b.todo[0]] + b.todo[1..] == b.called + b.todo;
    SuffixMembers(b.todo, b.callbacks);
  }

  lemma {:induction false} WalkKeepsInv(b: Board, script: seq<seq<Op>>)
    requires EmitInv(b)
    ensures var r := Walk(b, script); r.Alive? ==> EmitInv(r.board) && r.board.todo == []
    decreases |b.todo| + AllAdds(script)
  {
    if b.todo != [] {
      CallKeepsInv(b);
      var ops := First(script);
      ApplyAllKeepsInv(Pop(b), ops);
      ApplyAllTodo(Pop(b), ops);
      var r := ApplyAll(Pop(b), ops);
      if r.Alive? {
        WalkKeepsInv(r.board, Rest(script));
      }
    }
  }

  lemma StartInv(b: Board)
    requires ListInv(b)
    ensures EmitInv(Start(b))
  {
    KeepNone(b.callbacks);
    assert Start(b).called + Start(b).todo == b.callbacks;
  }

  lemma {:induction false} ApplyAllExtends(b: Board, ops: seq<Op>)
    ensures var r := ApplyAll(b, ops); r.Alive? ==> b.registered <= r.board.registered && b.skipped <= r.board.skipped
    decreases ops
  {
    if ops != [] {
      ApplyAllExtends(Apply(b, ops[0]), ops[1..]);
    }
  }

  lemma {:induction false} WalkExtends(b: Board, script: seq<seq<Op>>)
    ensures var r := Walk(b, script);
      r.Alive? ==> b.registered <= r.board.registered && b.skipped <= r.board.skipped && b.called <= r.board.called
    decreases |b.todo| + AllAdds(script)
  {
    if b.todo != [] {
      var ops := First(script);
      ApplyAllTodo(Pop(b), ops);
      ApplyAllExtends(Pop(b), ops);
      CalledUnchanged(Pop(b), ops);
      var r := ApplyAll(Pop(b), ops);
      if r.Alive? {
        WalkExtends(r.board, Rest(script));
      }
    }
  }

  /** The walk is over after as many calls as were waiting and are added on the way, at most. */
  lemma {:induction false} WalkIsBounded(b: Board, script: seq<seq<Op>>)
    ensures var r := Walk(b, script);
      r.Alive? ==> |r.board.called| <= |b.called| + |b.todo| + AllAdds(script)
    decreases |b.todo| + AllAdds(script)
  {
    if b.todo != [] {
      var ops := First(script);
      ApplyAllTodo(Pop(b), ops);
      CalledUnchanged(Pop(b), ops);
      var r := ApplyAll(Pop(b), ops);
      if r.Alive? {
        WalkIsBounded(r.board, Rest(script));
      }
    }
  }

  lemma {:induction false} CalledUnchanged(b: Board, ops: seq<Op>)
    ensures var r := ApplyAll(b, ops); r.Alive? ==> r.board.called == b.called
    decreases ops
  {
    if ops != [] {
      CalledUnchanged(Apply(b, ops[0]), ops[1..]);
    }
  }

  // ---------------------------------------------------------------- when the list is sure to survive

  /** Callbacks take away only callbacks with these keys. */
  predicate RemovesOnly(ops: seq<Op>, keys: set<string>) {
    forall op :: op in ops && op.Remove? ==> op.key in keys
  }

  predicate AllRemoveOnly(script: seq<seq<Op>>, keys: set<string>) {
    forall ops :: ops in script ==> RemovesOnly(ops, keys)
  }

  /** Some registered callback has another key. */
  predicate SomeoneStays(b: Board, keys: set<string>) {
    exists c :: c in b.callbacks && c.key !in keys
  }

  lemma {:induction false} WithoutOther(s: seq<Callback>, c: Callback, x: Callback)
    requires x in s && x != c
    ensures x in Without(s, c)
  {
    if s[0] != c && s[0] != x {
      WithoutOther(s[1..], c, x);
    }
  }

  lemma ApplyLeavesSomeone(b: Board, op: Op, keys: set<string>)
    requires SomeoneStays(b, keys) && (op.Remove? ==> op.key in keys)
    ensures SomeoneStays(Apply(b, op), keys)
  {
    var c :| c in b.callbacks && c.key !in keys;
    if op.Remove? {
      FindFinds(b.callbacks, op.key);
      var i := Find(b.callbacks, op.key);
      if i < |b.callbacks| {
        WithoutOther(b.callbacks, b.callbacks[i], c);
      }
    }
    assert c in Apply(b, op).callbacks;
  }

  lemma {:induction false} OpsAlive(b: Board, ops: seq<Op>, keys: set<string>)
    requires SomeoneStays(b, keys) && RemovesOnly(ops, keys)
    ensures var r := ApplyAll(b, ops); r.Alive? && SomeoneStays(r.board, keys)
    decreases ops
  {
    if ops != [] {
      ApplyLeavesSomeone(b, ops[0], keys);
      OpsAlive(Apply(b, ops[0]), ops[1..], keys);
    }
  }

  lemma {:induction false} WalkAlive(b: Board, script: seq<seq<Op>>, keys: set<string>)
    requires SomeoneStays(b, keys) && AllRemoveOnly(script, keys)
    ensures Walk(b, script).Alive?
    decreases |b.todo| + AllAdds(script)
  {
    if b.todo != [] {
      assert SomeoneStays(Pop(b), keys);
      OpsAlive(Pop(b), First(script), keys);
      ApplyAllTodo(Pop(b), First(script));
      WalkAlive(ApplyAll(Pop(b), First(script)).board, Rest(script), keys);
    }
  }

  /** One removal for every registered callback. */
  function Removals(callbacks: seq<Callback>): (ops: seq<Op>)
    ensures forall op :: op in ops ==> op.Remove? && exists c :: c in callbacks && c.key == op.key
  {
    if callbacks == [] then [] else [Remove(callbacks[0].key)] + Removals(callbacks[1..])
  }

  lemma {:induction false} RemovalsEmpty(b: Board)
    requires b.callbacks != []
    ensures ApplyAll(b, Removals(b.callbacks)) == Dangling
    decreases |b.callbacks|
  {
    var ops := Removals(b.callbacks);
    assert ops[1..] == Removals(b.callbacks[1..]);
    assert Apply(b, ops[0]).callbacks == b.callbacks[1..];
    if |b.callbacks| > 1 {
      RemovalsEmpty(Apply(b, ops[0]));
    }
  }

  /** Of callbacks that take away only callbacks with the given keys, none can free the list while it
      is walked, whatever else they do, if and only if nothing is registered to begin with or some
      registered callback has another key. */
  lemma WhenEmissionSurvives(b: Board, keys: set<string>)
    ensures (forall script :: AllRemoveOnly(script, keys) ==> Emission(b, script).Alive?) <==>
      b.callbacks == [] || SomeoneStays(b, keys)
  {
    if SomeoneStays(b, keys) {
      forall script | AllRemoveOnly(script, keys) ensures Emission(b, script).Alive? {
        assert SomeoneStays(Start(b), keys);
        WalkAlive(Start(b), script, keys);
      }
    } else if b.callbacks != [] {
      var ops := Removals(b.callbacks);
      RemovalsEmpty(Pop(Start(b)));
      assert AllRemoveOnly([ops], keys) && Emission(b, [ops]) == Dangling;
    }
  }

  /** One emission calls, each exactly once and in registration order, the callbacks registered at
      its start or while it ran, except just those that were removed before their turn.  It is
      sure to get to its end if the callbacks leave some registered one alone. */
  lemma EmissionCallsEachOnce(b: Board, script: seq<seq<Op>>, keys: set<string>)
    requires ListInv(b)
    ensures AllRemoveOnly(script, keys) && (b.callbacks == [] || SomeoneStays(b, keys)) ==> Emission(b, script).Alive?
    ensures var r := Emission(b, script);
      r.Alive? ==>
        && r.board.called == Keep(r.board.registered, r.board.skipped)
        && b.callbacks <= r.board.registered
        && Ascending(r.board.called)
        && (forall c :: c in r.board.called <==> c in r.board.registered && c !in r.board.skipped)
        && (forall c :: c in r.board.skipped ==> c !in r.board.callbacks)
  {
    WhenEmissionSurvives(b, keys);
    StartInv(b);
    WalkKeepsInv(Start(b), script);
    WalkExtends(Start(b), script);
    var r := Emission(b, script);
    if r.Alive? {
      assert r.board.called + [] == r.board.called;
      KeepMembers(r.board.registered, r.board.skipped);
    }
  }
}

/** The list of callbacks as the proxy keeps it: a pointer into a list that changes under it. */
module NotifyDispatch {
  import opened Wrappers
  import opened DispatchQueue

  /** A pointer is NULL or at a node of the list. */
  predicate Points(next: Option<nat>, callbacks: seq<Callback>) {
    next.Some? ==> exists i :: 0 <= i < |callbacks| && callbacks[i].id == next.value
  }

  /** The node after the one at position i. */
  function NextOf(callbacks: seq<Callback>, i: nat): Option<nat> {
    if i + 1 < |callbacks| then Some(callbacks[i + 1].id) else None
  }

  class NotifyData {
    const gtype: string            // the type of the variable
    var callbacks: seq<Callback>
    var nextEmit: Option<nat>      // the node the emission will call next
    var nextId: nat
    var called: seq<Callback>
    ghost var registered: seq<Callback>
    ghost var skipped: set<Callback>

    ghost function View(): Board
      reads this
    {
      Board(callbacks, From(callbacks, nextEmit), nextId, registered, skipped, called)
    }

    ghost predicate Valid()
      reads this
    {
      ListInv(View()) && Points(nextEmit, callbacks)
    }

    constructor (gtype: string)
      ensures Valid() && this.gtype == gtype && callbacks == []
    {
      this.gtype := gtype;
      callbacks, nextEmit, nextId, called := [], None, 0, [];
      registered, skipped := [], {};
    }

    method AddNotify(key: string, gtype: string) returns (added: bool)
      requires Valid()
      modifies this
      ensures Valid()
      ensures added == (gtype == this.gtype)
      ensures View() == if added then Apply(old(View()), Add(key)) else old(View())
    {
      if gtype != this.gtype {
        return false;
      }
      var c := Callback(nextId, key);
      FromAppend(callbacks, nextEmit, c);
      PointsAppend(callbacks, nextEmit, c);
      callbacks := callbacks + [c];
      nextId := nextId + 1;
      registered := registered + [c];
      if nextEmit == None {
        nextEmit := Some(c.id);
      }
      added := true;
    }

    /** Remove the first callback with this key, moving the pointer on if it stands there. */
    method RemoveNotify(key: string) returns (found: bool)
      requires Valid()
      modifies this
      ensures Valid()
      ensures found <==> exists c :: c in old(callbacks) && c.key == key
      ensures View() == Apply(old(View()), Remove(key))
    {
      FindFinds(callbacks, key);
      found := false;
      var i := 0;
      while i < |callbacks| && !found
        invariant 0 <= i <= |callbacks|
        invariant !found ==> i <= Find(callbacks, key)
        invariant found ==> i == Find(callbacks, key) < |callbacks|
        decreases |callbacks| - i, !found
      {
        if callbacks[i].key == key {
          found := true;
        } else {
          i := i + 1;
        }
      }
      if found {
        Unlink(i);
      }
    }

    method Unlink(i: nat)
      requires Valid() && i < |callbacks|
      modifies this
      ensures Valid()
      ensures var b := old(View());
        var c := b.callbacks[i];
        View() == b.(callbacks := Without(b.callbacks, c), todo := Without(b.todo, c),
                     skipped := if c in b.todo then b.skipped + {c} else b.skipped)
    {
      ghost var c := callbacks[i];
      UnlinkMoves(callbacks, nextEmit, i);
      WithoutMembers(callbacks, c);
      WithoutAt(callbacks, i);
      if c in From(callbacks, nextEmit) {
        skipped := skipped + {c};
      }
      if nextEmit == Some(callbacks[i].id) {
        nextEmit := NextOf(callbacks, i);
      }
      callbacks := callbacks[..i] + callbacks[i + 1..];
    }

    /** What a called callback does to the list; `alive` is false once the list has been freed. */
    method Perform(ops: seq<Op>) returns (alive: bool)
      requires Valid()
      modifies this
      ensures alive == ApplyAll(old(View()), ops).Alive?
      ensures alive ==> Valid() && View() == ApplyAll(old(View()), ops).board
    {
      alive := true;
      var i := 0;
      while i < |ops| && alive
        invariant 0 <= i <= |ops|
        invariant alive ==> Valid() && ApplyAll(View(), ops[i..]) == ApplyAll(old(View()), ops)
        invariant !alive ==> ApplyAll(old(View()), ops).Dangling?
      {
        var before := |callbacks|;
        assert ops[i..][1..] == ops[i + 1..];
        if ops[i].Add? {
          var _ := AddNotify(ops[i].key, gtype);
        } else {
          var _ := RemoveNotify(ops[i].key);
        }
        if |callbacks| == 0 && before > 0 {
          alive := false;
        }
        i := i + 1;
      }
    }

    /** Call the callback of node `l`, with the pointer already moved to the node after it. */
    method CallNode(l: nat, ops: seq<Op>) returns (alive: bool)
      requires Valid() && Points(Some(l), callbacks)
      requires From(callbacks, Some(l)) != []
      modifies this
      ensures var c := Pop(old(View().(todo := From(callbacks, Some(l)))));
        && alive == ApplyAll(c, ops).Alive?
        && (alive ==> Valid() && View() == ApplyAll(c, ops).board)
    {
      var i := Node(callbacks, l);
      FromAt(callbacks, i);
      NextStands(callbacks, i);
      nextEmit := NextOf(callbacks, i);
      called := called + [callbacks[i]];
      assert View() == Pop(old(View().(todo := From(callbacks, Some(l)))));
      alive := Perform(ops);
    }

    /** Call the callbacks; the i-th one called does what `script[i]` says, if anything. */
    method EmitNotification(script: seq<seq<Op>>) returns (alive: bool)
      requires Valid()
      modifies this
      ensures alive == Emission(old(View()), script).Alive?
      ensures alive ==> Valid() && nextEmit == None && View() == Emission(old(View()), script).board
    {
      called, registered, skipped := [], callbacks, {};
      var l := if |callbacks| > 0 then Some(callbacks[0].id) else None;
      var rest := script;
      while l.Some?
        invariant Valid() && Points(l, callbacks) && (l.None? ==> nextEmit.None?)
        invariant Walk(View().(todo := From(callbacks, l)), rest) == Emission(old(View()), script)
        decreases |From(callbacks, l)| + AllAdds(rest)
      {
        ghost var here := View().(todo := From(callbacks, l));
        FromNode(callbacks, l.value);
        ApplyAllTodo(Pop(here), First(rest));
        alive := CallNode(l.value, First(rest));
        if !alive {
          return;
        }
        l, rest := nextEmit, Rest(rest);
      }
      alive := true;
    }
  }

  lemma FromNode(callbacks: seq<Callback>, id: nat)
    requires Ascending(callbacks) && Points(Some(id), callbacks)
    ensures From(callbacks, Some(id)) != []
  {
    FromAt(callbacks, Node(callbacks, id));
  }

  /** The position of a node in the list. */
  function Node(callbacks: seq<Callback>, id: nat): (i: nat)
    requires Points(Some(id), callbacks)
    ensures i < |callbacks| && callbacks[i].id == id
  {
    if callbacks[0].id == id then 0
    else
      assert exists i :: 0 <= i < |callbacks[1..]| && callbacks[1..][i].id == id by {
        var j :| 0 <= j < |callbacks| && callbacks[j].id == id;
        assert callbacks[1..][j - 1].id == id;
      }
      1 + Node(callbacks[1..], id)
  }

  lemma NextStands(callbacks: seq<Callback>, i: nat)
    requires Ascending(callbacks) && i < |callbacks|
    ensures Points(NextOf(callbacks, i), callbacks)
    ensures From(callbacks, NextOf(callbacks, i)) == callbacks[i + 1..]
  {
    if i + 1 < |callbacks| {
      FromAt(callbacks, i + 1);
    }
  }

  lemma {:induction false} FromAppend(callbacks: seq<Callback>, next: Option<nat>, c: Callback)
    requires forall x :: x in callbacks ==> x.id < c.id
    requires Points(next, callbacks)
    ensures From(callbacks + [c], if next.None? then Some(c.id) else next) == From(callbacks, next) + [c]
    decreases |callbacks|
  {
    var goal := if next.None? then c.id else next.value;
    if callbacks == [] {
      assert callbacks + [c] == [c];
    } else {
      assert (callbacks + [c])[1..] == callbacks[1..] + [c];
      assert callbacks[0] in callbacks;
      if callbacks[0].id != goal {
        if next.Some? {
          var i :| 0 <= i < |callbacks| && callbacks[i].id == next.value;
          assert callbacks[1..][i - 1].id == next.value;
        }
        FromAppend(callbacks[1..], next, c);
      }
    }
  }

  lemma PointsAppend(callbacks: seq<Callback>, next: Option<nat>, c: Callback)
    requires Points(next, callbacks)
    ensures Points(if next.None? then Some(c.id) else next, callbacks + [c])
  {
    if next.None? {
      assert (callbacks + [c])[|callbacks|].id == c.id;
    } else {
      var i :| 0 <= i < |callbacks| && callbacks[i].id == next.value;
      assert (callbacks + [c])[i].id == next.value;
    }
  }

  /** In a list of distinct nodes the pointer at node j stands for the list from j on. */
  lemma {:induction false} FromAt(callbacks: seq<Callback>, j: nat)
    requires Ascending(callbacks) && j < |callbacks|
    ensures From(callbacks, Some(callbacks[j].id)) == callbacks[j..]
    decreases j
  {
    if j > 0 {
      assert callbacks[0].id < callbacks[j].id;
      FromAt(callbacks[1..], j - 1);
      assert callbacks[1..][j - 1..] == callbacks[j..];
    }
  }

  lemma {:induction false} WithoutAt(callbacks: seq<Callback>, i: nat)
    requires Ascending(callbacks) && i < |callbacks|
    ensures Without(callbacks, callbacks[i]) == callbacks[..i] + callbacks[i + 1..]
    decreases i
  {
    if i > 0 {
      WithoutAt(callbacks[1..], i - 1);
    }
  }

  lemma WithoutBefore(callbacks: seq<Callback>, i: nat, j: nat)
    requires Ascending(callbacks) && i < j < |callbacks|
    ensures Without(callbacks[j..], callbacks[i]) == callbacks[j..]
  {
    var tail := callbacks[j..];
    forall k | 0 <= k < |tail| ensures tail[k] != callbacks[i] {
      assert tail[k] == callbacks[j + k];
    }
    WithoutLength(tail, callbacks[i]);
  }

  lemma WithoutInside(callbacks: seq<Callback>, i: nat, j: nat)
    requires Ascending(callbacks) && j <= i < |callbacks|
    ensures Without(callbacks[j..], callbacks[i]) == callbacks[j..i] + callbacks[i + 1..]
  {
    var tail := callbacks[j..];
    assert tail[i - j] == callbacks[i];
    WithoutAt(tail, i - j);
    assert tail[..i - j] == callbacks[j..i];
    assert tail[i - j + 1..] == callbacks[i + 1..];
  }

  lemma LeftAscends(callbacks: seq<Callback>, i: nat)
    requires Ascending(callbacks) && i < |callbacks|
    ensures Ascending(callbacks[..i] + callbacks[i + 1..])
  {
  }

  /** The pointer stands before the node that goes. */
  lemma UnlinkLater(callbacks: seq<Callback>, j: nat, i: nat)
    requires Ascending(callbacks) && j < i < |callbacks|
    ensures var left := callbacks[..i] + callbacks[i + 1..];
      && Points(Some(callbacks[j].id), left)
      && From(left, Some(callbacks[j].id)) == Without(callbacks[j..], callbacks[i])
  {
    var left := callbacks[..i] + callbacks[i + 1..];
    LeftAscends(callbacks, i);
    assert left[j] == callbacks[j];
    FromAt(left, j);
    WithoutInside(callbacks, i, j);
    assert left[j..] == callbacks[j..i] + callbacks[i + 1..];
  }

  /** The pointer stands after the node that goes. */
  lemma UnlinkEarlier(callbacks: seq<Callback>, j: nat, i: nat)
    requires Ascending(callbacks) && i < j < |callbacks|
    ensures var left := callbacks[..i] + callbacks[i + 1..];
      && Points(Some(callbacks[j].id), left)
      && From(left, Some(callbacks[j].id)) == Without(callbacks[j..], callbacks[i])
  {
    var left := callbacks[..i] + callbacks[i + 1..];
    LeftAscends(callbacks, i);
    assert left[j - 1] == callbacks[j];
    FromAt(left, j - 1);
    WithoutBefore(callbacks, i, j);
    assert left[j - 1..] == callbacks[j..];
  }

  /** The pointer stands at the node that goes, and moves to the one after it. */
  lemma UnlinkHere(callbacks: seq<Callback>, i: nat)
    requires Ascending(callbacks) && i < |callbacks|
    ensures var left := callbacks[..i] + callbacks[i + 1..];
      && Points(NextOf(callbacks, i), left)
      && From(left, NextOf(callbacks, i)) == Without(callbacks[i..], callbacks[i])
  {
    var left := callbacks[..i] + callbacks[i + 1..];
    WithoutInside(callbacks, i, i);
    if i + 1 < |callbacks| {
      LeftAscends(callbacks, i);
      assert left[i] == callbacks[i + 1];
      FromAt(left, i);
      assert left[i..] == callbacks[i + 1..];
    }
  }

  /** The adjusted pointer stands, in the shortened list, for what it stood for less the node. */
  lemma UnlinkMoves(callbacks: seq<Callback>, next: Option<nat>, i: nat)
    requires Ascending(callbacks) && Points(next, callbacks) && i < |callbacks|
    ensures var left := callbacks[..i] + callbacks[i + 1..];
      var moved := if next == Some(callbacks[i].id) then NextOf(callbacks, i) else next;
      && Points(moved, left)
      && From(left, moved) == Without(From(callbacks, next), callbacks[i])
  {
    if next.Some? {
      var j :| 0 <= j < |callbacks| && callbacks[j].id == next.value;
      FromAt(callbacks, j);
      if j < i {
        UnlinkLater(callbacks, j, i);
      } else if j > i {
        UnlinkEarlier(callbacks, j, i);
      } else {
        UnlinkHere(callbacks, i);
      }
    }
  }
}
