/** The frame clock (src/frame.ts): an integer frame counter at 60 frames per second. */
module Frame {
  import JsBuiltins

  const Fps: int := 60

  /**
   * Math.round(duration * (fps / 1000)): the nearest whole number of frames
   * to a duration in milliseconds, halves rounded up.
   */
  function GetNumberOfFrames(duration: real): (frames: int)
    ensures duration * 0.06 - 0.5 < frames as real <= duration * 0.06 + 0.5
    ensures duration >= 0.0 ==> frames >= 0
  {
    JsBuiltins.Round(duration * (Fps as real / 1000.0))
  }

  /** A longer duration never takes fewer frames; one second is exactly 60 frames. */
  lemma NumberOfFramesMonotone(a: real, b: real)
    requires a <= b
    ensures GetNumberOfFrames(a) <= GetNumberOfFrames(b)
    ensures GetNumberOfFrames(1000.0) == 60
    ensures GetNumberOfFrames(0.0) == 0
  {
    JsBuiltins.RoundMonotone(a * 0.06, b * 0.06);
  }

  class Clock {
    var globalFrame: int

    constructor()
      ensures globalFrame == 0
    {
      globalFrame := 0;
    }

    /** The frame that is `offset` milliseconds after the next one. */
    function GetNextFrame(offset: real): (frame: int)
      reads this
      ensures offset >= 0.0 ==> frame > globalFrame
      ensures frame - globalFrame - 1 == GetNumberOfFrames(offset)
    {
      globalFrame + 1 + GetNumberOfFrames(offset)
    }

    method GoToNextFrame()
      modifies this
      ensures globalFrame == old(globalFrame) + 1
    {
      globalFrame := GetNextFrame(0.0);
    }
  }
}

/** The game event record (src/gameEvent.ts): start frame and length from `when` and `duration`. */
module GameEvent {
  import opened Frame

  datatype GameEvent<R> = GameEvent(frame: int, totalFrames: int, run: R)

  /**
   * The constructor: `when` and `duration` are milliseconds, read against the
   * current frame; both must be non-negative (development assertions).
   */
  function NewGameEvent<R>(globalFrame: int, when: real, duration: real, run: R): (event: GameEvent<R>)
    requires when >= 0.0
    requires duration >= 0.0
    ensures event.frame > globalFrame
    ensures event.frame - globalFrame - 1 == GetNumberOfFrames(when)
    ensures event.totalFrames == GetNumberOfFrames(duration) >= 0
    ensures event.run == run
  {
    GameEvent(globalFrame + 1 + GetNumberOfFrames(when), GetNumberOfFrames(duration), run)
  }

  /** With the defaults `when = duration = 0` the event starts on the next frame and lasts zero frames. */
  lemma DefaultEvent<R>(globalFrame: int, run: R)
    ensures NewGameEvent(globalFrame, 0.0, 0.0, run) == GameEvent(globalFrame + 1, 0, run)
  {
  }
}

/**
 * The event queue (src/eventQueue.ts): an array of events kept sorted by
 * frame. A push appends and then sorts with Array.prototype.sort, which is
 * stable (ECMAScript 2019, section 22.1.3.27), so the result is the unique
 * stable ordering by frame, written here as an insertion sort.
 */
module EventQueue {
  datatype QueuedEvent<R> = QueuedEvent(frame: int, run: R)

  function CompareByFrame<R>(a: QueuedEvent<R>, b: QueuedEvent<R>): (order: int)
    ensures order < 0 <==> a.frame < b.frame
    ensures order == 0 <==> a.frame == b.frame
    ensures order > 0 <==> a.frame > b.frame
  {
    a.frame - b.frame
  }

  ghost predicate SortedByFrame<R>(s: seq<QueuedEvent<R>>) {
    forall i, j :: 0 <= i < j < |s| ==> s[i].frame <= s[j].frame
  }

  /** Places `e` after every event whose frame is not later than its own. */
  function InsertByFrame<R>(s: seq<QueuedEvent<R>>, e: QueuedEvent<R>): seq<QueuedEvent<R>>
    decreases |s|
  {
    if s == [] then [e]
    else if e.frame < s[0].frame then [e] + s
    else [s[0]] + InsertByFrame(s[1..], e)
  }

  /** The stable sort by frame: each event is inserted after the equal-frame events before it. */
  function SortByFrame<R>(s: seq<QueuedEvent<R>>): seq<QueuedEvent<R>>
    decreases |s|
  {
    if s == [] then [] else InsertByFrame(SortByFrame(s[..|s| - 1]), s[|s| - 1])
  }

  /** Every event of the insertion is the inserted one or an old one, so shared bounds carry over. */
  lemma {:induction false} InsertLowerBound<R>(s: seq<QueuedEvent<R>>, e: QueuedEvent<R>, bound: int)
    requires forall i :: 0 <= i < |s| ==> s[i].frame >= bound
    requires e.frame >= bound
    ensures forall k :: 0 <= k < |InsertByFrame(s, e)| ==> InsertByFrame(s, e)[k].frame >= bound
    decreases |s|
  {
    if s != [] && e.frame >= s[0].frame {
      InsertLowerBound(s[1..], e, bound);
    }
  }

  /** Inserting into a sorted queue keeps it sorted. */
  lemma {:induction false} InsertSorted<R>(s: seq<QueuedEvent<R>>, e: QueuedEvent<R>)
    requires SortedByFrame(s)
    ensures SortedByFrame(InsertByFrame(s, e))
    ensures multiset(InsertByFrame(s, e)) == multiset(s) + multiset{e}
    ensures |InsertByFrame(s, e)| == |s| + 1
    decreases |s|
  {
    InsertKeepsAll(s, e);
    if s != [] {
      if e.frame >= s[0].frame {
        var tail := s[1..];
        InsertSorted(tail, e);
        InsertLowerBound(tail, e, s[0].frame);
        var r := InsertByFrame(tail, e);
        var t := [s[0]] + r;
        assert InsertByFrame(s, e) == t;
        forall i, j | 0 <= i < j < |t|
          ensures t[i].frame <= t[j].frame
        {
          assert t[j] == r[j - 1];
          if i > 0 {
            assert t[i] == r[i - 1];
          }
        }
      } else {
        var t := [e] + s;
        assert InsertByFrame(s, e) == t;
        forall i, j | 0 <= i < j < |t|
          ensures t[i].frame <= t[j].frame
        {
          assert t[j] == s[j - 1];
          if i > 0 {
            assert t[i] == s[i - 1];
          }
        }
      }
    }
  }

  /** Inserting adds exactly the one event and drops none. */
  lemma {:induction false} InsertKeepsAll<R>(s: seq<QueuedEvent<R>>, e: QueuedEvent<R>)
    ensures multiset(InsertByFrame(s, e)) == multiset(s) + multiset{e}
    ensures |InsertByFrame(s, e)| == |s| + 1
    decreases |s|
  {
    if s != [] && e.frame >= s[0].frame {
      InsertKeepsAll(s[1..], e);
      assert s == [s[0]] + s[1..];
    }
  }

  /** How many leading events of a queue are not later than `e`. */
  function InsertIndex<R>(s: seq<QueuedEvent<R>>, e: QueuedEvent<R>): (k: nat)
    ensures k <= |s|
    decreases |s|
  {
    if s == [] || e.frame < s[0].frame then 0 else 1 + InsertIndex(s[1..], e)
  }

  /**
   * In a sorted queue a pushed event lands after every event with an equal
   * or earlier frame and before every later one; the others keep their order.
   */
  lemma {:induction false} InsertPosition<R>(s: seq<QueuedEvent<R>>, e: QueuedEvent<R>)
    requires SortedByFrame(s)
    ensures InsertByFrame(s, e) == s[..InsertIndex(s, e)] + [e] + s[InsertIndex(s, e)..]
    ensures forall i :: 0 <= i < InsertIndex(s, e) ==> s[i].frame <= e.frame
    ensures forall i :: InsertIndex(s, e) <= i < |s| ==> s[i].frame > e.frame
    decreases |s|
  {
    if s != [] && e.frame >= s[0].frame {
      var tail := s[1..];
      InsertPosition(tail, e);
      var k := InsertIndex(tail, e);
      assert s[..k + 1] == [s[0]] + tail[..k];
      assert s[k + 1..] == tail[k..];
    }
  }

  lemma {:induction false} SortSorted<R>(s: seq<QueuedEvent<R>>)
    ensures SortedByFrame(SortByFrame(s))
    ensures multiset(SortByFrame(s)) == multiset(s)
    decreases |s|
  {
    if s != [] {
      SortSorted(s[..|s| - 1]);
      InsertSorted(SortByFrame(s[..|s| - 1]), s[|s| - 1]);
      assert s == s[..|s| - 1] + [s[|s| - 1]];
    }
  }

  /** Sorting an already sorted queue changes nothing. */
  lemma {:induction false} SortOfSorted<R>(s: seq<QueuedEvent<R>>)
    requires SortedByFrame(s)
    ensures SortByFrame(s) == s
    decreases |s|
  {
    if s != [] {
      var init := s[..|s| - 1];
      SortOfSorted(init);
      InsertAtEnd(init, s[|s| - 1]);
      assert s == init + [s[|s| - 1]];
    }
  }

  lemma {:induction false} InsertAtEnd<R>(s: seq<QueuedEvent<R>>, e: QueuedEvent<R>)
    requires forall i :: 0 <= i < |s| ==> s[i].frame <= e.frame
    ensures InsertByFrame(s, e) == s + [e]
    decreases |s|
  {
    if s != [] {
      InsertAtEnd(s[1..], e);
      assert s == [s[0]] + s[1..];
    }
  }

  /** push-then-sort on a sorted queue is the stable insertion of the new event. */
  lemma PushSortIsInsert<R>(s: seq<QueuedEvent<R>>, e: QueuedEvent<R>)
    requires SortedByFrame(s)
    ensures SortByFrame(s + [e]) == InsertByFrame(s, e)
  {
    assert (s + [e])[..|s|] == s;
    SortOfSorted(s);
  }

  class EventQueue<R> {
    var events: seq<QueuedEvent<R>>

    ghost predicate Valid()
      reads this
    {
      SortedByFrame(events)
    }

    constructor()
      ensures Valid() && events == []
    {
      events := [];
    }

    method IsEmpty() returns (empty: bool)
      ensures empty <==> |events| == 0
    {
      empty := |events| == 0;
    }

    /** Requires an event strictly after the current frame (a development assertion). */
    method Push(event: QueuedEvent<R>, currentFrame: int)
      requires Valid()
      requires event.frame > currentFrame
      modifies this
      ensures Valid()
      ensures events == InsertByFrame(old(events), event)
      ensures multiset(events) == multiset(old(events)) + multiset{event}
    {
      PushSortIsInsert(events, event);
      InsertSorted(events, event);
      events := SortByFrame(events + [event]);
    }

    /** The earliest event, without removing it; the queue must not be empty. */
    method Peek() returns (event: QueuedEvent<R>)
      requires Valid()
      requires |events| > 0
      ensures event == events[0]
      ensures forall i :: 0 <= i < |events| ==> event.frame <= events[i].frame
    {
      event := events[0];
    }

    /** Removes and returns the earliest event; the queue must not be empty. */
    method Pop() returns (event: QueuedEvent<R>)
      requires Valid()
      requires |events| > 0
      modifies this
      ensures Valid()
      ensures event == old(events)[0] && events == old(events)[1..]
      ensures forall i :: 0 <= i < |old(events)| ==> event.frame <= old(events)[i].frame
    {
      event := events[0];
      events := events[1..];
    }
  }
}
