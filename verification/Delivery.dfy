/** Which of the events of one read reach the queue. */
module Delivery {
  import opened EventMask
  import opened EventRecords

  /** Watched descriptors with the mask of their watch. */
  type Watched = map<int, bv32>

  /** After this event the watch is disabled. */
  predicate Terminates(watchMask: bv32, e: Event) {
    IsType(watchMask, IN_ONESHOT) || IsType(e.mask, IN_IGNORED)
  }

  /** The watched descriptors after one event. */
  function After(watched: Watched, e: Event): Watched {
    if e.wd in watched && Terminates(watched[e.wd], e) then watched - {e.wd} else watched
  }

  function AfterAll(watched: Watched, es: seq<Event>): Watched {
    if es == [] then watched else After(AfterAll(watched, es[..|es| - 1]), es[|es| - 1])
  }

  /** The events that reach the queue when they are looked up one after the other. */
  function Deliver(watched: Watched, es: seq<Event>): seq<Event> {
    if es == [] then []
    else
      var init, e := es[..|es| - 1], es[|es| - 1];
      if e.wd in AfterAll(watched, init) then Deliver(watched, init) + [e] else Deliver(watched, init)
  }

  // ---------------------------------------------------------------- the same, said at once

  /** No event before position `i` ends the watch on `wd`. */
  ghost predicate StillWatched(watched: Watched, es: seq<Event>, i: nat, wd: int)
    requires i <= |es|
  {
    wd in watched && forall j :: 0 <= j < i && es[j].wd == wd ==> !Terminates(watched[wd], es[j])
  }

  /** The events at the first `n` positions whose watch has not been ended before them. */
  ghost function Wanted(watched: Watched, es: seq<Event>, n: nat): seq<Event>
    requires n <= |es|
  {
    if n == 0 then []
    else Wanted(watched, es, n - 1) + (if StillWatched(watched, es, n - 1, es[n - 1].wd) then [es[n - 1]] else [])
  }

  /** A watch is over after an event that announces that its mark was dropped, and after any event
      if it is for one event only. */
  lemma TerminatesExactly(watchMask: bv32, e: Event)
    ensures Terminates(watchMask, e) <==> watchMask & IN_ONESHOT != 0 || e.mask & IN_IGNORED != 0
  {
  }

  lemma StillWatchedExactly(watched: Watched, es: seq<Event>, i: nat, wd: int)
    requires i <= |es|
    ensures StillWatched(watched, es, i, wd) <==>
            wd in watched
            && forall j :: 0 <= j < i && es[j].wd == wd ==>
                 watched[wd] & IN_ONESHOT == 0 && es[j].mask & IN_IGNORED == 0
  {
    if wd in watched {
      forall j | 0 <= j < i
        ensures Terminates(watched[wd], es[j]) <==> watched[wd] & IN_ONESHOT != 0 || es[j].mask & IN_IGNORED != 0
      {
        TerminatesExactly(watched[wd], es[j]);
      }
    }
  }

  lemma {:induction false} AfterAllKeeps(watched: Watched, es: seq<Event>)
    ensures forall wd :: wd in AfterAll(watched, es) <==> StillWatched(watched, es, |es|, wd)
    ensures forall wd :: wd in AfterAll(watched, es) ==> wd in watched && AfterAll(watched, es)[wd] == watched[wd]
  {
    if es != [] {
      var init, e := es[..|es| - 1], es[|es| - 1];
      AfterAllKeeps(watched, init);
      forall wd
        ensures wd in AfterAll(watched, es) <==> StillWatched(watched, es, |es|, wd)
      {
        assert StillWatched(watched, init, |init|, wd) <==> StillWatched(watched, es, |init|, wd);
      }
    }
  }

  lemma {:induction false} WantedPrefix(watched: Watched, es: seq<Event>, n: nat)
    requires n < |es|
    ensures Wanted(watched, es, n) == Wanted(watched, es[..|es| - 1], n)
  {
    if n != 0 {
      WantedPrefix(watched, es, n - 1);
      var init, wd := es[..|es| - 1], es[n - 1].wd;
      assert StillWatched(watched, init, n - 1, wd) <==> StillWatched(watched, es, n - 1, wd);
    }
  }

  /** Looking the events up one after the other, disabling watches on the way, queues exactly
      the events whose watch has not been ended by an earlier one: a watch that ends delivers
      the event that ended it and none after it. */
  lemma {:induction false} DeliverIsFilter(watched: Watched, es: seq<Event>)
    ensures Deliver(watched, es) == Wanted(watched, es, |es|)
  {
    if es != [] {
      var init, e := es[..|es| - 1], es[|es| - 1];
      DeliverIsFilter(watched, init);
      WantedPrefix(watched, es, |init|);
      AfterAllKeeps(watched, init);
      assert StillWatched(watched, init, |init|, e.wd) <==> StillWatched(watched, es, |init|, e.wd);
    }
  }
}
