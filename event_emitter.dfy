/** The gateway's event emitter (src/utils/event-emitter.ts): a map from event
    name to the ordered list of its listeners. Callbacks are opaque ids;
    calling one has no effect the emitter can see, except that the wrapper
    `once` registers removes itself after its callback returns. */
module Events {
  import opened Wrappers

  /** An entry of a listener list: a callback registered with `on`, or the
      fresh wrapper function `once` registers around a callback. A wrapper is
      a different function from the callback it wraps, so `off(event,
      callback)` never finds it. */
  datatype Listener = Plain(callback: nat) | OnceWrapper(wrapper: nat, callback: nat)

  /** `list.indexOf(x)`. */
  function IndexOf(list: seq<Listener>, x: Listener): (i: int)
    ensures -1 <= i < |list|
    ensures i == -1 <==> x !in list
    ensures 0 <= i ==> list[i] == x && x !in list[..i]
  {
    if list == [] then -1
    else if list[0] == x then 0
    else
      var j := IndexOf(list[1..], x);
      assert j >= 0 ==> list[1..][..j] == list[1..j + 1];
      if j == -1 then -1 else j + 1
  }

  /** `const i = list.indexOf(x); if (i > -1) list.splice(i, 1)`: the first
      occurrence of `x` is removed and the others keep their order. */
  function RemoveFirst(list: seq<Listener>, x: Listener): (r: seq<Listener>)
    ensures x !in list ==> r == list
    ensures x in list ==> exists i | 0 <= i < |list| :: list[i] == x && x !in list[..i] && r == list[..i] + list[i + 1..]
    ensures x in list ==> |r| == |list| - 1
  {
    var i := IndexOf(list, x);
    if i == -1 then list else list[..i] + list[i + 1..]
  }

  /** The splice itself: finds the first `x` and removes it in place of the
      list, when there is one. */
  method SpliceOut(list: seq<Listener>, x: Listener) returns (r: seq<Listener>)
    ensures r == RemoveFirst(list, x)
  {
    r := list;
    var index := IndexOf(list, x);
    if index > -1 {
      r := list[..index] + list[index + 1..];
    }
  }

  /** A listener that does not occur before position `|a|` is found there,
      and splicing it out leaves the rest in order. */
  lemma IndexAfterPrefix(a: seq<Listener>, x: Listener, b: seq<Listener>)
    requires x !in a
    ensures var list := a + [x] + b;
      IndexOf(list, x) == |a| && list[..|a|] + list[|a| + 1..] == a + b
  {
    var list := a + [x] + b;
    assert list[|a|] == x;
    assert forall k | 0 <= k < |a| :: list[k] == a[k];
    assert forall j | |a| < j <= |list| :: list[..j][|a|] == x;
    assert list[..|a|] == a && list[|a| + 1..] == b;
  }

  /** The callback each listener of the list invokes, in order. */
  function Callbacks(list: seq<Listener>): (r: seq<nat>)
    ensures |r| == |list|
    ensures forall i | 0 <= i < |list| :: r[i] == list[i].callback
  {
    seq(|list|, k requires 0 <= k < |list| => list[k].callback)
  }

  /** Whether a listener takes itself out once it has run: a `once` wrapper
      whose callback returned normally (one that throws skips the `off`). */
  predicate RemovesItself(l: Listener, throwing: set<nat>) {
    l.OnceWrapper? && l.callback !in throwing
  }

  /** A list after one emission: the `once` wrappers that ran to the end are
      gone, every other listener stays, in order. */
  function AfterEmit(list: seq<Listener>, throwing: set<nat>): (r: seq<Listener>)
  {
    if list == [] then []
    else
      var last := list[|list| - 1];
      AfterEmit(list[..|list| - 1], throwing) + (if RemovesItself(last, throwing) then [] else [last])
  }

  /** One emission leaves only listeners the list held, and none of them
      removes itself. */
  lemma {:induction false} AfterEmitWithin(list: seq<Listener>, throwing: set<nat>)
    ensures forall l | l in AfterEmit(list, throwing) :: l in list && !RemovesItself(l, throwing)
  {
    if list != [] {
      var init := list[..|list| - 1];
      AfterEmitWithin(init, throwing);
      assert forall l | l in init :: l in list;
    }
  }

  /** One emission removes no listener registered with `on`, keeps them in
      order, and leaves no `once` wrapper whose callback returned. */
  lemma {:induction false} AfterEmitKeepsPlain(list: seq<Listener>, throwing: set<nat>)
    ensures forall l | l in list && !RemovesItself(l, throwing) :: l in AfterEmit(list, throwing)
    ensures |AfterEmit(list, throwing)| <= |list|
  {
    if list != [] {
      var init := list[..|list| - 1];
      AfterEmitKeepsPlain(init, throwing);
      forall l | l in list && !RemovesItself(l, throwing)
        ensures l in AfterEmit(list, throwing)
      {
        if l != list[|list| - 1] {
          var i :| 0 <= i < |list| && list[i] == l;
          assert init[i] == l;
        }
      }
    }
  }

  /** No `once` wrapper occurs twice in a list: none occurs again after its
      own position. */
  predicate DistinctWrappers(list: seq<Listener>) {
    list == [] || ((list[0].OnceWrapper? ==> list[0] !in list[1..]) && DistinctWrappers(list[1..]))
  }

  /** A list extended by one listener keeps its wrappers distinct exactly
      when the list did and the new listener, if a wrapper, is not in it. */
  lemma {:induction false} DistinctWrappersAppend(list: seq<Listener>, l: Listener)
    ensures DistinctWrappers(list + [l]) <==> DistinctWrappers(list) && (l.OnceWrapper? ==> l !in list)
  {
    if list == [] {
      assert [l][1..] == [];
    } else {
      assert (list + [l])[1..] == list[1..] + [l];
      DistinctWrappersAppend(list[1..], l);
    }
  }

  /** In a list without repeated wrappers, the wrapper at `i` occurs
      nowhere after `i`. */
  lemma {:induction false} WrapperNotRepeated(list: seq<Listener>, i: nat)
    requires DistinctWrappers(list) && i < |list| && list[i].OnceWrapper?
    ensures list[i] !in list[i + 1..]
  {
    if i > 0 {
      WrapperNotRepeated(list[1..], i - 1);
      assert list[1..][i - 1] == list[i] && list[1..][i..] == list[i + 1..];
    }
  }

  /** A list where no two positions hold the same wrapper has no repeated
      wrappers. */
  lemma {:induction false} DistinctWrappersFromPairs(list: seq<Listener>)
    requires forall i, j | 0 <= i < j < |list| && list[i].OnceWrapper? :: list[i] != list[j]
    ensures DistinctWrappers(list)
  {
    if list != [] {
      assert forall j | 0 <= j < |list| - 1 :: list[1..][j] == list[j + 1];
      DistinctWrappersFromPairs(list[1..]);
    }
  }

  predicate WrappersBelow(list: seq<Listener>, bound: nat) {
    forall l | l in list && l.OnceWrapper? :: l.wrapper < bound
  }

  predicate NoDuplicates<E(==)>(s: seq<E>) {
    forall i, j | 0 <= i < j < |s| :: s[i] != s[j]
  }

  /** The element at `k` once the one at `i` is spliced out. */
  lemma SpliceIndex(list: seq<Listener>, i: nat, k: nat)
    requires i < |list| && k < |list| - 1
    ensures (list[..i] + list[i + 1..])[k] == list[if k < i then k else k + 1]
  {
  }

  /** Removing the first `x` keeps every other listener of the list. */
  lemma RemoveFirstKeeps(list: seq<Listener>, x: Listener, m: Listener)
    requires m in list && m != x
    ensures m in RemoveFirst(list, x)
  {
    var i := IndexOf(list, x);
    if i >= 0 {
      var j :| 0 <= j < |list| && list[j] == m;
      if j < i {
        SpliceIndex(list, i, j);
      } else {
        SpliceIndex(list, i, j - 1);
      }
    }
  }

  /** Removing the first `x` leaves only listeners of the list. */
  lemma RemoveFirstWithin(list: seq<Listener>, x: Listener)
    ensures forall l | l in RemoveFirst(list, x) :: l in list
  {
    var i := IndexOf(list, x);
    if i >= 0 {
      var r := list[..i] + list[i + 1..];
      forall l | l in r
        ensures l in list
      {
        var k :| 0 <= k < |r| && r[k] == l;
        SpliceIndex(list, i, k);
      }
    }
  }

  /** Two positions of a list with index `i` spliced out do not hold the
      same wrapper: they came from two positions of the list. */
  lemma SpliceApart(list: seq<Listener>, i: nat, a: nat, b: nat)
    requires DistinctWrappers(list) && i < |list| && a < b < |list| - 1
    requires (list[..i] + list[i + 1..])[a].OnceWrapper?
    ensures (list[..i] + list[i + 1..])[a] != (list[..i] + list[i + 1..])[b]
  {
    SpliceIndex(list, i, a);
    SpliceIndex(list, i, b);
    var p := if a < i then a else a + 1;
    var q := if b < i then b else b + 1;
    WrapperNotRepeated(list, p);
    assert list[p + 1..][q - p - 1] == list[q];
  }

  lemma DistinctWrappersRemoveFirst(list: seq<Listener>, x: Listener)
    requires DistinctWrappers(list)
    ensures DistinctWrappers(RemoveFirst(list, x))
    ensures forall l | l in RemoveFirst(list, x) :: l in list
  {
    RemoveFirstWithin(list, x);
    var i := IndexOf(list, x);
    if i >= 0 {
      var r := list[..i] + list[i + 1..];
      forall a, b | 0 <= a < b < |r| && r[a].OnceWrapper?
        ensures r[a] != r[b]
      {
        SpliceApart(list, i, a, b);
      }
      DistinctWrappersFromPairs(r);
    }
  }

  /** The live list once the listener at index `k` has run: a `once`
      wrapper whose callback returned has spliced its first occurrence out. */
  function Visit(live: seq<Listener>, k: nat, throwing: set<nat>): seq<Listener>
    requires k < |live|
  {
    if RemovesItself(live[k], throwing) then RemoveFirst(live, live[k]) else live
  }

  /** What the `forEach` of `emit` does from index `k` of the live list
      on: the element now at `k`, if any, is called, and a `once` wrapper
      whose callback returned splices its first occurrence out of the same
      list before the loop moves to `k + 1`. Returns the callbacks called
      and the list left behind. (`forEach` stops at the length the list had
      when it began; the list only shrinks, so it stops at the live end.) */
  function ForEachFrom(live: seq<Listener>, k: nat, throwing: set<nat>): (r: (seq<nat>, seq<Listener>))
    decreases |live| + 1 - k
  {
    if k >= |live| then ([], live)
    else
      var rest := ForEachFrom(Visit(live, k, throwing), k + 1, throwing);
      ([live[k].callback] + rest.0, rest.1)
  }

  /** One step of `forEach` at an index that still holds a listener. */
  lemma ForEachVisit(done: seq<nat>, live: seq<Listener>, k: nat, throwing: set<nat>)
    requires k < |live|
    ensures var rest := ForEachFrom(Visit(live, k, throwing), k + 1, throwing);
      && done + ForEachFrom(live, k, throwing).0 == done + [live[k].callback] + rest.0
      && ForEachFrom(live, k, throwing).1 == rest.1
  {
    var rest := ForEachFrom(Visit(live, k, throwing), k + 1, throwing);
    assert ForEachFrom(live, k, throwing) == ([live[k].callback] + rest.0, rest.1);
    AppendAssociates(done, [live[k].callback], rest.0);
  }

  /** Visiting an index leaves only listeners of the list, so only their
      callbacks. */
  lemma VisitStaysInList(live: seq<Listener>, k: nat, throwing: set<nat>)
    requires k < |live|
    ensures forall l | l in Visit(live, k, throwing) :: l in live
    ensures forall c | c in Callbacks(Visit(live, k, throwing)) :: c in Callbacks(live)
  {
    var next := Visit(live, k, throwing);
    RemoveFirstWithin(live, live[k]);
    forall c | c in Callbacks(next)
      ensures c in Callbacks(live)
    {
      var j :| 0 <= j < |next| && Callbacks(next)[j] == c;
      assert next[j] in live;
      var j' :| 0 <= j' < |live| && live[j'] == next[j];
      assert Callbacks(live)[j'] == c;
    }
  }

  /** `forEach` over the live list calls only callbacks of listeners in the
      list and leaves only listeners that were in it. */
  lemma {:induction false} ForEachStaysInList(live: seq<Listener>, k: nat, throwing: set<nat>)
    ensures forall c | c in ForEachFrom(live, k, throwing).0 :: c in Callbacks(live)
    ensures forall l | l in ForEachFrom(live, k, throwing).1 :: l in live
    decreases |live| + 1 - k
  {
    if k < |live| {
      ForEachStaysInList(Visit(live, k, throwing), k + 1, throwing);
      VisitStaysInList(live, k, throwing);
    }
  }

  /** Without a `once` wrapper that removes itself, `emit` calls every
      listener from `k` on, in order, and leaves the list as it was. */
  lemma {:induction false} ForEachWithoutRemovals(live: seq<Listener>, k: nat, throwing: set<nat>)
    requires k <= |live|
    requires forall l | l in live :: !RemovesItself(l, throwing)
    ensures ForEachFrom(live, k, throwing) == (Callbacks(live[k..]), live)
    decreases |live| - k
  {
    if k < |live| {
      assert Visit(live, k, throwing) == live by {
        assert live[k] in live;
      }
      ForEachWithoutRemovals(live, k + 1, throwing);
      assert Callbacks(live[k..]) == [live[k].callback] + Callbacks(live[k + 1..]) by {
        assert live[k..] == [live[k]] + live[k + 1..];
        CallbacksPrepend(live[k], live[k + 1..]);
      }
    }
  }

  /** `emit` never removes a listener that does not remove itself. */
  lemma {:induction false} ForEachKeeps(live: seq<Listener>, k: nat, throwing: set<nat>)
    ensures forall l | l in live && !RemovesItself(l, throwing) :: l in ForEachFrom(live, k, throwing).1
    decreases |live| + 1 - k
  {
    if k < |live| {
      var next := Visit(live, k, throwing);
      ForEachKeeps(next, k + 1, throwing);
      forall m | m in live && !RemovesItself(m, throwing)
        ensures m in next
      {
        if RemovesItself(live[k], throwing) {
          RemoveFirstKeeps(live, live[k], m);
        }
      }
    }
  }

  /** The as-written emission keeps the wrappers of a list distinct. */
  lemma {:induction false} ForEachDistinct(live: seq<Listener>, k: nat, throwing: set<nat>)
    requires DistinctWrappers(live)
    ensures DistinctWrappers(ForEachFrom(live, k, throwing).1)
    decreases |live| + 1 - k
  {
    if k < |live| {
      var l := live[k];
      if RemovesItself(l, throwing) {
        DistinctWrappersRemoveFirst(live, l);
        ForEachDistinct(RemoveFirst(live, l), k + 1, throwing);
      } else {
        ForEachDistinct(live, k + 1, throwing);
      }
    }
  }

  /** The discrepancy: a `once` listener followed by an `on` listener. The
      wrapper splices itself out while `forEach` runs, the `on` listener
      moves into the slot already visited, and it is never called. */
  lemma ListenerAfterOnceIsSkipped()
    ensures var list := [OnceWrapper(0, 7), Plain(8)];
      var r := ForEachFrom(list, 0, {});
      r.0 == [7] && r.1 == [Plain(8)] && Callbacks(list) == [7, 8]
  {
    var list := [OnceWrapper(0, 7), Plain(8)];
    assert IndexOf(list, OnceWrapper(0, 7)) == 0;
    assert RemoveFirst(list, OnceWrapper(0, 7)) == [Plain(8)];
    var none: set<nat> := {};
    assert RemovesItself(list[0], none);
    assert ForEachFrom([Plain(8)], 1, none) == ([], [Plain(8)]);
    assert ForEachFrom(list, 0, none) == ([7] + [], [Plain(8)]);
    assert Callbacks(list) == [7, 8];
  }

  /** Appending one listener to a list extends what an emission leaves by
      that listener, unless it removes itself. */
  lemma AfterEmitAppend(init: seq<Listener>, l: Listener, throwing: set<nat>)
    ensures AfterEmit(init + [l], throwing) == AfterEmit(init, throwing) + (if RemovesItself(l, throwing) then [] else [l])
  {
    assert (init + [l])[..|init|] == init;
  }

  /** In a list without repeated wrappers, a wrapper is not among the
      listeners an emission of the part before it keeps. */
  lemma WrapperNotKept(snapshot: seq<Listener>, i: nat, throwing: set<nat>)
    requires i < |snapshot| && DistinctWrappers(snapshot) && snapshot[i].OnceWrapper?
    ensures snapshot[i] !in AfterEmit(snapshot[..i], throwing)
  {
    forall j | 0 <= j < i
      ensures snapshot[..i][j] != snapshot[i]
    {
      assert snapshot[..i][j] == snapshot[j];
      if snapshot[j] == snapshot[i] {
        WrapperNotRepeated(snapshot, j);
      }
    }
    AfterEmitWithin(snapshot[..i], throwing);
  }

  /** The callbacks of one more listener of a list. */
  lemma CallbacksStep(list: seq<Listener>, i: nat)
    requires i < |list|
    ensures Callbacks(list[..i + 1]) == Callbacks(list[..i]) + [list[i].callback]
  {
    assert forall k | 0 <= k < i :: list[..i + 1][k] == list[..i][k];
  }

  /** The callbacks of a list with one more listener in front. */
  lemma CallbacksPrepend(l: Listener, list: seq<Listener>)
    ensures Callbacks([l] + list) == [l.callback] + Callbacks(list)
  {
    var r, expected := Callbacks([l] + list), [l.callback] + Callbacks(list);
    forall k | 0 <= k < |r|
      ensures r[k] == expected[k]
    {
      if k > 0 {
        assert ([l] + list)[k] == list[k - 1];
      }
    }
  }

  /** One step of the intended emission, where the listener at `i` stays:
      the live list, the kept listeners followed by the unvisited rest, is
      the same before and after it. */
  lemma KeepStep(snapshot: seq<Listener>, i: nat, throwing: set<nat>)
    requires i < |snapshot| && !RemovesItself(snapshot[i], throwing)
    ensures AfterEmit(snapshot[..i + 1], throwing) + snapshot[i + 1..] == AfterEmit(snapshot[..i], throwing) + snapshot[i..]
  {
    var kept := AfterEmit(snapshot[..i], throwing);
    assert snapshot[..i + 1] == snapshot[..i] + [snapshot[i]];
    AfterEmitAppend(snapshot[..i], snapshot[i], throwing);
    assert snapshot[i..] == [snapshot[i]] + snapshot[i + 1..];
    AppendAssociates(kept, [snapshot[i]], snapshot[i + 1..]);
  }

  /** One step of the intended emission, where the listener at `i` removes
      itself: it is found right after the kept listeners and spliced out. */
  lemma RemoveStep(snapshot: seq<Listener>, i: nat, throwing: set<nat>)
    requires i < |snapshot| && DistinctWrappers(snapshot) && RemovesItself(snapshot[i], throwing)
    ensures var kept := AfterEmit(snapshot[..i], throwing);
      var live := kept + snapshot[i..];
      IndexOf(live, snapshot[i]) == |kept|
      && live[..|kept|] + live[|kept| + 1..] == AfterEmit(snapshot[..i + 1], throwing) + snapshot[i + 1..]
  {
    var kept := AfterEmit(snapshot[..i], throwing);
    var x, rest := snapshot[i], snapshot[i + 1..];
    assert kept + snapshot[i..] == kept + [x] + rest by {
      assert snapshot[i..] == [x] + rest;
      AppendAssociates(kept, [x], rest);
    }
    assert AfterEmit(snapshot[..i + 1], throwing) == kept by {
      assert snapshot[..i + 1] == snapshot[..i] + [x];
      AfterEmitAppend(snapshot[..i], x, throwing);
      assert kept + [] == kept;
    }
    WrapperNotKept(snapshot, i, throwing);
    IndexAfterPrefix(kept, x, rest);
  }

  /** An emission keeps the wrappers of a list distinct. */
  lemma {:induction false} AfterEmitDistinct(list: seq<Listener>, throwing: set<nat>)
    requires DistinctWrappers(list)
    ensures DistinctWrappers(AfterEmit(list, throwing))
  {
    if list != [] {
      var init := list[..|list| - 1];
      var last := list[|list| - 1];
      assert list == init + [last];
      DistinctWrappersAppend(init, last);
      AfterEmitDistinct(init, throwing);
      if RemovesItself(last, throwing) {
        assert AfterEmit(init, throwing) + [] == AfterEmit(init, throwing);
      } else {
        AfterEmitWithin(init, throwing);
        DistinctWrappersAppend(AfterEmit(init, throwing), last);
      }
    }
  }

  class EventEmitter<E(==)> {
    /** `listeners`: the list of each event that has one. */
    var listeners: map<E, seq<Listener>>
    /** The keys of `listeners` in the order the map iterates them (insertion order). */
    var names: seq<E>
    /** The id the next `once` wrapper gets; every wrapper is a new function. */
    var nextWrapper: nat

    ghost predicate Valid()
      reads this
    {
      && NoDuplicates(names)
      && (forall e | e in names :: e in listeners)
      && (forall e | e in listeners :: e in names)
      && (forall e | e in listeners :: DistinctWrappers(listeners[e]) && WrappersBelow(listeners[e], nextWrapper))
    }

    /** The list of `event`, or the empty list when it has none. */
    function ListOf(event: E): seq<Listener>
      reads this
    {
      if event in listeners then listeners[event] else []
    }

    constructor ()
      ensures Valid()
      ensures listeners == map[] && names == []
    {
      listeners := map[];
      names := [];
      nextWrapper := 0;
    }

    /** Appends a listener to the list of `event`, creating the list (and
        the key, at the end of the iteration order) when it is missing. */
    method Append(event: E, l: Listener)
      requires Valid()
      requires l.OnceWrapper? ==> l.wrapper == nextWrapper
      modifies this
      ensures listeners == old(listeners)[event := old(ListOf(event)) + [l]]
      ensures names == if event in old(listeners) then old(names) else old(names) + [event]
      ensures nextWrapper == old(nextWrapper)
      ensures l.Plain? ==> Valid()
    {
      if event !in listeners {
        listeners := listeners[event := []];
        names := names + [event];
      }
      listeners := listeners[event := listeners[event] + [l]];
      DistinctWrappersAppend(old(ListOf(event)), l);
    }

    /** `on(event, callback)`: the callback goes at the end of the list; a
        callback registered twice is there twice. */
    method On(event: E, callback: nat)
      requires Valid()
      modifies this
      ensures Valid()
      ensures listeners == old(listeners)[event := old(ListOf(event)) + [Plain(callback)]]
      ensures names == if event in old(listeners) then old(names) else old(names) + [event]
      ensures ListenerCount(event) == old(ListenerCount(event)) + 1
    {
      Append(event, Plain(callback));
    }

    /** `once(event, callback)`: registers a fresh wrapper around the callback. */
    method Once(event: E, callback: nat) returns (wrapper: nat)
      requires Valid()
      modifies this
      ensures Valid()
      ensures wrapper == old(nextWrapper) && nextWrapper == wrapper + 1
      ensures listeners == old(listeners)[event := old(ListOf(event)) + [OnceWrapper(wrapper, callback)]]
      ensures names == if event in old(listeners) then old(names) else old(names) + [event]
      ensures OnceWrapper(wrapper, callback) !in old(ListOf(event))
    {
      wrapper := nextWrapper;
      Append(event, OnceWrapper(wrapper, callback));
      nextWrapper := nextWrapper + 1;
      forall e | e in listeners
        ensures DistinctWrappers(listeners[e]) && WrappersBelow(listeners[e], nextWrapper)
      {
        if e == event {
          var list := listeners[e];
          DistinctWrappersAppend(old(ListOf(event)), OnceWrapper(wrapper, callback));
          assert forall i | 0 <= i < |list| - 1 :: list[i] == old(ListOf(event))[i];
        }
      }
    }

    /** `off(event, callback)`: removes the first registration of the callback
        made with `on`; nothing happens for an unknown event or callback, and
        the (possibly emptied) list stays in the map. */
    method Off(event: E, callback: nat)
      requires Valid()
      modifies this
      ensures Valid()
      ensures listeners == if event in old(listeners)
        then old(listeners)[event := RemoveFirst(old(listeners)[event], Plain(callback))]
        else old(listeners)
      ensures names == old(names) && nextWrapper == old(nextWrapper)
    {
      if event in listeners {
        var list := listeners[event];
        var rest := SpliceOut(list, Plain(callback));
        listeners := listeners[event := rest];
        DistinctWrappersRemoveFirst(list, Plain(callback));
      }
    }

    /** `emit(event)` as written: `forEach` over the live list, where each
        `once` wrapper whose callback returned splices itself out while the
        loop runs. `throwing` is the set of callbacks that throw this time;
        their exceptions are caught and the loop goes on. Callbacks do not
        otherwise re-enter the emitter. */
    method Emit(event: E, throwing: set<nat>) returns (called: seq<nat>)
      requires Valid()
      modifies this
      ensures Valid()
      ensures event !in old(listeners) ==> called == [] && listeners == old(listeners)
      ensures event in old(listeners) ==>
        var r := ForEachFrom(old(listeners)[event], 0, throwing);
        called == r.0 && listeners == old(listeners)[event := r.1]
      ensures names == old(names) && nextWrapper == old(nextWrapper)
    {
      called := [];
      if event !in listeners {
        return;
      }
      var live;
      called, live := ForEach(listeners[event], throwing);
      ForEachDistinct(listeners[event], 0, throwing);
      ForEachStaysInList(listeners[event], 0, throwing);
      Replace(event, live);
    }

    /** The `forEach` of `emit`: it visits the indices below the length the
        list had when it began and calls the listener now at each index
        that still holds one. */
    static method ForEach(list: seq<Listener>, throwing: set<nat>) returns (called: seq<nat>, live: seq<Listener>)
      ensures (called, live) == ForEachFrom(list, 0, throwing)
    {
      ghost var total := ForEachFrom(list, 0, throwing);
      called := [];
      live := list;
      var len := |list|;
      var k: nat := 0;
      assert called + total.0 == total.0;
      while k < len
        invariant k <= len && |live| <= len
        invariant (called + ForEachFrom(live, k, throwing).0, ForEachFrom(live, k, throwing).1) == total
      {
        if k < |live| {
          var l := live[k];
          ghost var before := live;
          ForEachVisit(called, live, k, throwing);
          called := called + [l.callback];
          if RemovesItself(l, throwing) {
            live := SpliceOut(live, l);
          }
          assert live == Visit(before, k, throwing);
        }
        k := k + 1;
      }
      assert called + [] == called;
    }

    /** `emit(event)` as intended: every listener the list held when the
        emission began is called once, in order, even when an earlier one
        throws; each `once` wrapper whose callback returned then splices
        itself out of the live list. */
    method EmitSnapshot(event: E, throwing: set<nat>) returns (called: seq<nat>)
      requires Valid()
      modifies this
      ensures Valid()
      ensures called == Callbacks(old(ListOf(event)))
      ensures listeners == if event in old(listeners)
        then old(listeners)[event := AfterEmit(old(listeners)[event], throwing)]
        else old(listeners)
      ensures names == old(names) && nextWrapper == old(nextWrapper)
    {
      called := [];
      if event !in listeners {
        return;
      }
      var snapshot := listeners[event];
      var live;
      called, live := CallListeners(snapshot, throwing);
      AfterEmitDistinct(snapshot, throwing);
      AfterEmitWithin(snapshot, throwing);
      Replace(event, live);
    }

    /** The loop of the intended `emit` over a copy of the list: calls each listener in
        order and splices each `once` wrapper whose callback returned out of
        the live list, which starts as the copy. */
    static method CallListeners(snapshot: seq<Listener>, throwing: set<nat>) returns (called: seq<nat>, live: seq<Listener>)
      requires DistinctWrappers(snapshot)
      ensures called == Callbacks(snapshot)
      ensures live == AfterEmit(snapshot, throwing)
    {
      called := [];
      live := snapshot;
      var i: nat := 0;
      assert snapshot[..0] == [] && snapshot[0..] == snapshot;
      while i < |snapshot|
        invariant i <= |snapshot|
        invariant called == Callbacks(snapshot[..i])
        invariant live == AfterEmit(snapshot[..i], throwing) + snapshot[i..]
      {
        var l := snapshot[i];
        CallbacksStep(snapshot, i);
        called := called + [l.callback];
        if RemovesItself(l, throwing) {
          RemoveStep(snapshot, i, throwing);
          var index := IndexOf(live, l);
          live := live[..index] + live[index + 1..];
        } else {
          KeepStep(snapshot, i, throwing);
        }
        i := i + 1;
      }
      assert snapshot[..i] == snapshot;
    }

    /** Stores a list for an event that has one, made of listeners its old
        list held. */
    method Replace(event: E, list: seq<Listener>)
      requires Valid() && event in listeners
      requires DistinctWrappers(list) && forall l | l in list :: l in listeners[event]
      modifies this
      ensures Valid()
      ensures listeners == old(listeners)[event := list]
      ensures names == old(names) && nextWrapper == old(nextWrapper)
    {
      listeners := listeners[event := list];
    }

    /** `removeAllListeners(event)` deletes that event's list and key;
        `removeAllListeners()` deletes them all. */
    method RemoveAllListeners(event: Option<E>)
      requires Valid()
      modifies this
      ensures Valid()
      ensures event.Some? ==> listeners == old(listeners) - {event.value}
      ensures event.Some? ==> names == Without(old(names), event.value)
      ensures event.None? ==> listeners == map[] && names == []
    {
      match event
      case Some(e) =>
        listeners := listeners - {e};
        names := Without(names, e);
      case None =>
        listeners := map[];
        names := [];
    }

    /** `listenerCount(event)`: 0 for an event with no list. */
    function ListenerCount(event: E): (n: nat)
      reads this
      ensures n == |ListOf(event)|
      ensures event !in listeners ==> n == 0
    {
      if event in listeners then |listeners[event]| else 0
    }

    /** `eventNames()`: every event that has a list, once each, in insertion
        order, including events whose list `off` has emptied. */
    function EventNames(): (r: seq<E>)
      reads this
      requires Valid()
      ensures NoDuplicates(r)
      ensures forall e | e in r :: e in listeners
      ensures forall e | e in listeners :: e in r
    {
      names
    }
  }

  /** `s` without the element `x`. */
  function Without<E(==)>(s: seq<E>, x: E): (r: seq<E>)
    ensures forall e | e in r :: e in s && e != x
    ensures forall e | e in s && e != x :: e in r
    ensures NoDuplicates(s) ==> NoDuplicates(r)
  {
    if s == [] then []
    else if s[0] == x then Without(s[1..], x)
    else
      var rest := Without(s[1..], x);
      assert NoDuplicates(s) ==> s[0] !in s[1..];
      [s[0]] + rest
  }
}
