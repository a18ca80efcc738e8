/** Terminating the stored processes one entry after the other, in whatever order the tables are
    walked through. */
module Termination {
  import opened Options
  import opened Messages
  import opened Lifecycle

  /** One round: a running process is stopped and the entry loses it, or goes. */
  function TerminateOne(b: Books, k: Key): Books
    requires b.Has(k)
  {
    if b.At(k).process.None? then b
    else RemoveProcess(b.(live := b.live - {b.At(k).process.value}), k)
  }

  function TerminateEach(b: Books, keys: seq<Key>): Books
    decreases |keys|
  {
    if keys == [] then b
    else TerminateEach(if b.Has(keys[0]) then TerminateOne(b, keys[0]) else b, keys[1..])
  }

  /** The entries among `keys` that do not survive. */
  ghost function Lost(b: Books, keys: set<Key>): set<Key> {
    set k | k in b.stored && k in keys && b.stored[k].process.Some? && b.stored[k].endpoint.None?
  }

  /** What terminating the entries under `keys` leads to, at a stroke. */
  ghost function TerminateSet(b: Books, keys: set<Key>): Books {
    b.(stored := map k | k in b.stored && k !in Lost(b, keys) ::
                   if k in keys then b.stored[k].(process := None) else b.stored[k],
       waits := Cancel(b.waits, set k | k in Lost(b, keys) && b.stored[k].addTimer.Some? :: b.stored[k].addTimer.value),
       live := b.live - set k | k in b.stored && k in keys && b.stored[k].process.Some? :: b.stored[k].process.value)
  }

  predicate Distinct<T(==)>(s: seq<T>) {
    forall i, j :: 0 <= i < j < |s| ==> s[i] != s[j]
  }

  ghost function ToSet<T>(s: seq<T>): set<T> {
    set x | x in s
  }

  lemma CancelMore(waits: seq<Wait>, some: set<Timer>, more: set<Timer>)
    ensures Cancel(Cancel(waits, some), more) == Cancel(waits, some + more)
  {
  }

  lemma TerminateOneIsSet(b: Books, k: Key)
    requires b.Has(k)
    ensures TerminateOne(b, k) == TerminateSet(b, {k})
  {
    var e, after := b.At(k), TerminateSet(b, {k});
    if e.process.None? {
      assert Lost(b, {k}) == {};
      assert e.(process := None) == e;
      assert after.stored == b.stored && after.live == b.live && after.waits == b.waits;
    } else if e.endpoint.None? {
      assert Lost(b, {k}) == {k};
      assert after.stored == b.stored - {k};
      assert (set j | j in Lost(b, {k}) && b.stored[j].addTimer.Some? :: b.stored[j].addTimer.value) == TimerOf(e);
      assert (set j | j in b.stored && j in {k} && b.stored[j].process.Some? :: b.stored[j].process.value)
             == {e.process.value};
    } else {
      assert Lost(b, {k}) == {};
      assert after.stored == b.stored[k := e.(process := None)] && after.waits == b.waits;
      assert (set j | j in b.stored && j in {k} && b.stored[j].process.Some? :: b.stored[j].process.value)
             == {e.process.value};
    }
  }

  /** Doing some and then others is doing both. */
  lemma SetsCombine(b: Books, some: set<Key>, others: set<Key>)
    requires some !! others
    ensures TerminateSet(TerminateSet(b, some), others) == TerminateSet(b, some + others)
  {
    var mid, both := TerminateSet(b, some), TerminateSet(b, some + others);
    var after := TerminateSet(mid, others);
    assert Lost(mid, others) == Lost(b, others) && Lost(b, some + others) == Lost(b, some) + Lost(b, others);
    assert after.stored == both.stored;
    var r := set k | k in Lost(b, some) && b.stored[k].addTimer.Some? :: b.stored[k].addTimer.value;
    var q := set k | k in Lost(mid, others) && mid.stored[k].addTimer.Some? :: mid.stored[k].addTimer.value;
    CancelMore(b.waits, r, q);
    assert r + q == set k | k in Lost(b, some + others) && b.stored[k].addTimer.Some? :: b.stored[k].addTimer.value;
    assert after.live == both.live;
  }

  lemma {:induction false} EachIsSet(b: Books, keys: seq<Key>)
    requires Distinct(keys) && ToSet(keys) <= b.stored.Keys
    ensures TerminateEach(b, keys) == TerminateSet(b, ToSet(keys))
    decreases |keys|
  {
    if keys == [] {
      NothingToTerminate(b);
    } else {
      var k, rest := keys[0], keys[1..];
      assert keys == [k] + rest && k in ToSet(keys) && k !in ToSet(rest);
      assert ToSet(keys) == {k} + ToSet(rest);
      TerminateOneIsSet(b, k);
      var mid := TerminateOne(b, k);
      assert ToSet(rest) <= mid.stored.Keys;
      EachIsSet(mid, rest);
      SetsCombine(b, {k}, ToSet(rest));
    }
  }

  lemma NothingToTerminate(b: Books)
    ensures TerminateSet(b, {}) == b
  {
    var after := TerminateSet(b, {});
    assert Lost(b, {}) == {};
    assert after.stored == b.stored && after.live == b.live && after.waits == b.waits;
  }

  /** A round may stay at its entry: what is left to do is the same. */
  lemma RoundAdvances(b: Books, keys: seq<Key>)
    requires keys != [] && b.Has(keys[0])
    ensures TerminateEach(TerminateOne(b, keys[0]), keys[1..]) == TerminateEach(b, keys)
    ensures TerminateOne(b, keys[0]).Has(keys[0]) ==>
            TerminateEach(TerminateOne(b, keys[0]), keys) == TerminateEach(b, keys)
  {
  }

  /** Terminating the monitors in any order and then the scrapers in any order terminates
      everything. */
  lemma InAnyOrder(b: Books, monitors: seq<Key>, scrapers: seq<Key>)
    requires Distinct(monitors) && Distinct(scrapers)
    requires forall k: Key :: k in monitors <==> k in b.stored && k.kind.Monitor?
    requires forall k: Key :: k in scrapers <==> k in TerminateEach(b, monitors).stored && k.kind.Scraper?
    ensures TerminateEach(TerminateEach(b, monitors), scrapers) == TerminateAll(b)
  {
    EachIsSet(b, monitors);
    var mid := TerminateSet(b, ToSet(monitors));
    assert forall k: Key :: k in Lost(b, ToSet(monitors)) ==> k.kind.Monitor?;
    EachIsSet(mid, scrapers);
    SetsCombine(b, ToSet(monitors), ToSet(scrapers));
    assert ToSet(monitors) + ToSet(scrapers) == b.stored.Keys by {
      forall k: Key | k in b.stored
        ensures k in ToSet(monitors) + ToSet(scrapers)
      {
        assert k.kind.Monitor? || k.kind.Scraper?;
      }
    }
    EverythingIsAll(b);
  }

  lemma EverythingIsAll(b: Books)
    ensures TerminateSet(b, b.stored.Keys) == TerminateAll(b)
  {
    var keys := b.stored.Keys;
    assert TerminateSet(b, keys).stored == Terminated(b.stored);
    assert (set k | k in Lost(b, keys) && b.stored[k].addTimer.Some? :: b.stored[k].addTimer.value)
           == TimersReleased(b.stored);
    assert (set k | k in b.stored && k in keys && b.stored[k].process.Some? :: b.stored[k].process.value)
           == ProcessesOf(b.stored);
  }
}
