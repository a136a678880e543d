/** Histories of available/unavailable signals, and what it means for them to alternate. */
module Signals {
  datatype Signal<T> = Up(item: T) | Down(item: T)

  /** The last signal about the item was `Up`. */
  predicate Announced<T(==)>(log: seq<Signal<T>>, x: T) {
    if log == [] then false
    else
      var last := log[|log| - 1];
      if last.item == x then last.Up? else Announced(log[..|log| - 1], x)
  }

  /** Per item, signals alternate, starting with `Up`. */
  predicate Alternates<T(==)>(log: seq<Signal<T>>) {
    if log == [] then true
    else
      var init, last := log[..|log| - 1], log[|log| - 1];
      Alternates(init) && (last.Up? <==> !Announced(init, last.item))
  }

  /** No two of the signals are about the same item. */
  predicate Separate<T(==)>(delta: seq<Signal<T>>) {
    forall i, j :: 0 <= i < j < |delta| ==> delta[i].item != delta[j].item
  }

  lemma AnnouncedSnoc<T>(log: seq<Signal<T>>, s: Signal<T>, x: T)
    ensures Announced(log + [s], x) == if s.item == x then s.Up? else Announced(log, x)
    ensures Alternates(log + [s]) <==> Alternates(log) && (s.Up? <==> !Announced(log, s.item))
  {
    assert (log + [s])[..|log|] == log;
  }

  /** The last of separate signals is the only one about its item. */
  lemma LastIsAlone<T>(delta: seq<Signal<T>>)
    requires delta != [] && Separate(delta)
    ensures var init, last := delta[..|delta| - 1], delta[|delta| - 1];
      && Separate(init) && Up(last.item) !in init && Down(last.item) !in init
      && last in delta && forall s :: s in delta <==> s in init || s == last
  {
    var init, last := delta[..|delta| - 1], delta[|delta| - 1];
    forall i | 0 <= i < |init| ensures init[i].item != last.item {
      assert init[i] == delta[i];
    }
    assert delta == init + [last];
  }

  /** Of separate signals, each decides for its own item. */
  lemma {:induction false} SignalsDecide<T>(log: seq<Signal<T>>, delta: seq<Signal<T>>, x: T)
    requires Separate(delta)
    ensures Announced(log + delta, x) <==> Up(x) in delta || (Announced(log, x) && Down(x) !in delta)
    decreases |delta|
  {
    if delta == [] {
      assert log + delta == log;
    } else {
      var init, last := delta[..|delta| - 1], delta[|delta| - 1];
      LastIsAlone(delta);
      assert log + delta == (log + init) + [last];
      SignalsDecide(log, init, x);
      AnnouncedSnoc(log + init, last, x);
    }
  }

  /** They alternate with what came before exactly when each is the opposite of its last. */
  lemma {:induction false} SignalsAlternate<T>(log: seq<Signal<T>>, delta: seq<Signal<T>>)
    requires Separate(delta)
    ensures Alternates(log + delta) <==>
      Alternates(log) && forall s :: s in delta ==> (s.Up? <==> !Announced(log, s.item))
    decreases |delta|
  {
    if delta == [] {
      assert log + delta == log;
    } else {
      var init, last := delta[..|delta| - 1], delta[|delta| - 1];
      LastIsAlone(delta);
      assert log + delta == (log + init) + [last];
      SignalsAlternate(log, init);
      SignalsDecide(log, init, last.item);
      AnnouncedSnoc(log + init, last, last.item);
    }
  }
}
