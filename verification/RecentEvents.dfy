/** The bounded memory that drops repeated lifecycle events
    (crates/openshell-driver-lxd/src/watcher.rs, `RecentEvents`). */
module RecentEvents {
  import opened Common

  /** Timestamp and metadata of an event, the pair that identifies it. */
  type Key = string

  const RECENT_EVENTS: nat := 64

  /** The memory and the forwarded events after a sequence of sightings. */
  datatype Sightings = Sightings(keys: seq<Key>, accepted: seq<Key>)

  /** What recording `key` leaves remembered. */
  function Remember(keys: seq<Key>, key: Key): seq<Key> {
    if key in keys then keys
    else if |keys| == RECENT_EVENTS then keys[1..] + [key]
    else keys + [key]
  }

  function Sight(events: seq<Key>): Sightings {
    if events == [] then Sightings([], [])
    else
      var s := Sight(Init(events));
      if Last(events) in s.keys then s
      else Sightings(Remember(s.keys, Last(events)), s.accepted + [Last(events)])
  }

  class RecentEvents {
    var keys: seq<Key>

    ghost predicate Valid() reads this { |keys| <= RECENT_EVENTS && NoDuplicates(keys) }

    constructor ()
      ensures Valid() && keys == []
    {
      keys := [];
    }

    /** Records an event, returning whether it was unseen. */
    method FirstSighting(key: Key) returns (unseen: bool)
      requires Valid()
      modifies this
      ensures Valid()
      ensures keys == if key in old(keys) then old(keys)
                      else if |old(keys)| == 64 then old(keys)[1..] + [key] else old(keys) + [key]
      ensures unseen <==> key !in old(keys)
    {
      if key in keys {
        return false;
      }
      if |keys| == RECENT_EVENTS {
        keys := keys[1..];
      }
      keys := keys + [key];
      return true;
    }
  }

  /** The loop around `FirstSighting`: what a whole event sequence forwards. */
  method Forward(events: seq<Key>) returns (forwarded: seq<Key>)
    ensures forwarded == Sight(events).accepted
  {
    var recent := new RecentEvents();
    forwarded := [];
    for i := 0 to |events|
      invariant recent.Valid() && fresh(recent)
      invariant Sight(events[..i]) == Sightings(recent.keys, forwarded)
    {
      assert Init(events[..i + 1]) == events[..i];
      var unseen := recent.FirstSighting(events[i]);
      if unseen {
        forwarded := forwarded + [events[i]];
      }
    }
    assert events[..|events|] == events;
  }

  function LastUpTo(s: seq<Key>, n: nat): seq<Key> {
    if |s| <= n then s else s[|s| - n..]
  }

  /** The memory is exactly the last min(64, n) accepted events, without repeats. */
  lemma {:induction false} MemoryIsRecentAccepted(events: seq<Key>)
    ensures var s := Sight(events);
            s.keys == LastUpTo(s.accepted, 64) && NoDuplicates(s.keys)
  {
    if events != [] {
      MemoryIsRecentAccepted(Init(events));
    }
  }

  /** The input with later repeats erased, in order. */
  function FirstOccurrences(events: seq<Key>): seq<Key> {
    if events == [] then []
    else if Last(events) in Init(events) then FirstOccurrences(Init(events))
    else FirstOccurrences(Init(events)) + [Last(events)]
  }

  /** Every repeat arrives while fewer than 64 other events were first seen since
      the event itself was. */
  ghost predicate WithinWindow(events: seq<Key>) {
    forall j :: 0 <= j < |events| ==> TimelyRepeat(events[..j], events[j])
  }

  /** If `key` repeats one of `events`, fewer than 64 others were first seen since. */
  ghost predicate TimelyRepeat(events: seq<Key>, key: Key) {
    key in events ==> key in LastUpTo(FirstOccurrences(events), 64)
  }

  /** Duplicate removal is exact precisely within the window. */
  lemma {:induction false} ExactWithinWindow(events: seq<Key>)
    ensures Sight(events).accepted == FirstOccurrences(events) <==> WithinWindow(events)
  {
    if events != [] {
      var init, last := Init(events), Last(events);
      ExactWithinWindow(init);
      MemoryIsRecentAccepted(init);
      AcceptedCovers(init);
      WindowSnoc(events);
      var acc, first := Sight(init).accepted, FirstOccurrences(init);
      if last !in init && acc + [last] == first + [last] {
        assert acc == (acc + [last])[..|acc|] == (first + [last])[..|first|] == first;
      }
    }
  }

  lemma WindowSnoc(events: seq<Key>)
    requires events != []
    ensures WithinWindow(events) <==>
              WithinWindow(Init(events)) && TimelyRepeat(Init(events), Last(events))
  {
    var init := Init(events);
    assert events[..|init|] == init;
    forall j | 0 <= j < |init| ensures TimelyRepeat(init[..j], init[j]) <==> TimelyRepeat(events[..j], events[j]) {
      assert init[..j] == events[..j];
    }
    if WithinWindow(events) {
      assert TimelyRepeat(events[..|init|], events[|init|]);
      forall j | 0 <= j < |init| ensures TimelyRepeat(init[..j], init[j]) {
        assert TimelyRepeat(events[..j], events[j]);
      }
    }
    if WithinWindow(init) && TimelyRepeat(init, Last(events)) {
      forall j | 0 <= j < |events| ensures TimelyRepeat(events[..j], events[j]) {
        if j < |init| { assert TimelyRepeat(init[..j], init[j]); }
      }
    }
  }

  lemma {:induction false} AcceptedCovers(events: seq<Key>)
    ensures |Sight(events).accepted| >= |FirstOccurrences(events)|
    ensures forall k :: k in Sight(events).accepted <==> k in events
    ensures forall k :: k in FirstOccurrences(events) <==> k in events
    ensures forall k :: k in Sight(events).keys ==> k in events
  {
    if events != [] {
      var init := Init(events);
      AcceptedCovers(init);
      MemoryIsRecentAccepted(init);
      assert events == init + [Last(events)];
    }
  }
}
