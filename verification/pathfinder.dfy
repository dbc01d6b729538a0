/**
 * The search over built-up hexes (src/pathFinder.ts). From a start hex it
 * walks a first-in first-out queue of (hex, direction) entries: the start
 * tries all six neighbours, and a hex reached in direction d tries only
 * d - 1, d and d + 1 (mod 6). Every candidate is shown to the caller's
 * predicate first; a truthy answer ends the search at once. A candidate
 * that holds a building and has not been seen is queued.
 *
 * Hexes are keyed by the point rather than by its `"x,y"` hash, which is
 * injective (Hex.HashInjective). The set of hashes with a building
 * (`buildings.has`) and the table of the six neighbouring offsets
 * (`neighborHexes`) are parameters. The predicate may keep state, as
 * gostekUseNClosest's does, so its answer is a function of every hex shown
 * to it so far, the current one last.
 */
module PathFinder {
  import opened Hex

  /** fromMap: row d lists the directions tried from an entry reached in direction d; row 6 is the start's. */
  const FromTable: seq<seq<nat>> :=
    [[5, 0, 1], [0, 1, 2], [1, 2, 3], [2, 3, 4], [3, 4, 5], [4, 5, 0], [0, 1, 2, 3, 4, 5]]

  /** The directions tried from an entry reached in direction `from`. */
  function FromMap(from: nat): (dirs: seq<nat>)
    requires from <= 6
    ensures |dirs| > 0
    ensures forall k :: 0 <= k < |dirs| ==> dirs[k] < 6
  {
    FromTable[from]
  }

  /** How many directions are tried from an entry reached in direction `from`: all six from the start, else three. */
  function DirectionCount(from: nat): nat {
    if from == 6 then 6 else 3
  }

  /** The k-th direction tried from an entry reached in direction `from`, counted around the hexagon. */
  function Direction(from: nat, k: nat): (d: nat)
    requires from <= 6 && k < DirectionCount(from)
    ensures d < 6
  {
    if from == 6 then k else (from + 5 + k) % 6
  }

  /** The table and the count-around-the-hexagon reading of it agree entry by entry. */
  lemma FromMapDirection(from: nat)
    requires from <= 6
    ensures |FromMap(from)| == DirectionCount(from)
    ensures forall k :: 0 <= k < DirectionCount(from) ==> FromMap(from)[k] == Direction(from, k)
  {
  }

  /** The table is "the direction before, the same direction, the direction after", and everything from the start. */
  lemma FromMapForward(from: nat)
    requires from <= 6
    ensures from < 6 ==> FromMap(from) == [(from + 5) % 6, from, (from + 1) % 6]
    ensures from == 6 ==> FromMap(from) == [0, 1, 2, 3, 4, 5]
  {
  }

  /** A queue entry: a hex and the direction it was reached in. */
  type Entry = (Point, nat)

  /** The hexes next to `hex` in the directions `dirs`, in order. */
  function Shifted(neighbors: seq<Point>, dirs: seq<nat>, hex: Point): (hexes: seq<Point>)
    requires forall k :: 0 <= k < |dirs| ==> dirs[k] < |neighbors|
    ensures |hexes| == |dirs|
    ensures forall k :: 0 <= k < |dirs| ==> hexes[k] == neighbors[dirs[k]].Add(hex)
  {
    if dirs == [] then [] else [neighbors[dirs[0]].Add(hex)] + Shifted(neighbors, dirs[1..], hex)
  }

  /** The hexes an entry shows to the predicate, in order. */
  function Candidates(neighbors: seq<Point>, entry: Entry): (hexes: seq<Point>)
    requires |neighbors| == 6 && entry.1 <= 6
    ensures |hexes| == |FromMap(entry.1)|
  {
    Shifted(neighbors, FromMap(entry.1), entry.0)
  }

  predicate Directions(queue: seq<Entry>) {
    forall k :: 0 <= k < |queue| ==> queue[k].1 <= 6
  }

  /** The candidates of the entries, entry after entry. */
  function AllCandidates(neighbors: seq<Point>, queue: seq<Entry>): seq<Point>
    requires |neighbors| == 6 && Directions(queue)
    decreases |queue|
  {
    if queue == [] then []
    else AllCandidates(neighbors, queue[..|queue| - 1]) + Candidates(neighbors, queue[|queue| - 1])
  }

  /** Entry k was queued while entry p was expanded. */
  ghost predicate QueuedFrom(neighbors: seq<Point>, queue: seq<Entry>, p: int, k: int)
    requires |neighbors| == 6 && Directions(queue) && 0 <= p < k < |queue|
  {
    queue[k].1 in FromMap(queue[p].1) && queue[k].0 == neighbors[queue[k].1].Add(queue[p].0)
  }

  /** Entry k was queued while an earlier entry was expanded. */
  ghost predicate Reached(neighbors: seq<Point>, queue: seq<Entry>, k: int)
    requires |neighbors| == 6 && Directions(queue) && 0 <= k < |queue|
  {
    exists p :: 0 <= p < k && QueuedFrom(neighbors, queue, p, k)
  }

  /** Entries k and l hold different hexes. */
  predicate Apart(queue: seq<Entry>, k: int, l: int)
    requires 0 <= k < |queue| && 0 <= l < |queue|
  {
    queue[k].0 != queue[l].0
  }

  /**
   * The shape of the queue: the start first, with direction 6; every other
   * entry a hex with a building, reached from an earlier entry in one of the
   * directions that entry tries; no hex twice.
   */
  ghost predicate WellQueued(neighbors: seq<Point>, occupied: set<Point>, start: Point, queue: seq<Entry>)
    requires |neighbors| == 6
  {
    && |queue| >= 1 && queue[0] == (start, 6) && Directions(queue)
    && (forall k :: 1 <= k < |queue| ==> queue[k].0 in occupied)
    && (forall k :: 1 <= k < |queue| ==> Reached(neighbors, queue, k))
    && (forall k, l :: 0 <= k < l < |queue| ==> Apart(queue, k, l))
  }

  /** Every candidate with a building, of every entry, is queued. */
  ghost predicate Closed(neighbors: seq<Point>, occupied: set<Point>, queue: seq<Entry>, upto: int)
    requires |neighbors| == 6 && Directions(queue) && 0 <= upto <= |queue|
  {
    forall k, c :: 0 <= k < upto && c in Candidates(neighbors, queue[k]) && c in occupied ==>
      exists l :: 0 <= l < |queue| && queue[l].0 == c
  }

  lemma AllCandidatesStep(neighbors: seq<Point>, queue: seq<Entry>, i: nat)
    requires |neighbors| == 6 && Directions(queue) && i < |queue|
    ensures AllCandidates(neighbors, queue[..i + 1]) == AllCandidates(neighbors, queue[..i]) + Candidates(neighbors, queue[i])
  {
    var prefix := queue[..i + 1];
    assert prefix[..|prefix| - 1] == queue[..i] && prefix[|prefix| - 1] == queue[i];
  }

  lemma {:induction false} AllCandidatesPrefix(neighbors: seq<Point>, queue: seq<Entry>, n: nat)
    requires |neighbors| == 6 && Directions(queue) && n <= |queue|
    ensures AllCandidates(neighbors, queue[..n]) <= AllCandidates(neighbors, queue)
    decreases |queue| - n
  {
    if n < |queue| {
      AllCandidatesPrefix(neighbors, queue, n + 1);
      AllCandidatesStep(neighbors, queue, n);
    } else {
      assert queue[..n] == queue;
    }
  }

  lemma {:induction false} SubsetSize<T>(a: set<T>, b: set<T>)
    requires a <= b
    ensures |a| <= |b|
    decreases |a|
  {
    if a != {} {
      var x :| x in a;
      SubsetSize(a - {x}, b - {x});
    }
  }

  /** The predicate's answer when shown the first m calls. */
  predicate StopsAt(stop: seq<Point> -> bool, calls: seq<Point>, m: int)
    requires 0 <= m <= |calls|
  {
    stop(calls[..m])
  }

  /** The predicate said no to every prefix of the calls. */
  ghost predicate Declined(stop: seq<Point> -> bool, calls: seq<Point>) {
    forall m :: 1 <= m <= |calls| ==> !StopsAt(stop, calls, m)
  }

  lemma DeclinedSnoc(stop: seq<Point> -> bool, calls: seq<Point>, next: Point)
    requires Declined(stop, calls) && !stop(calls + [next])
    ensures Declined(stop, calls + [next])
  {
    var c := calls + [next];
    forall m | 1 <= m <= |c|
      ensures !StopsAt(stop, c, m)
    {
      if m <= |calls| {
        assert c[..m] == calls[..m];
        assert !StopsAt(stop, calls, m);
      } else {
        assert c[..m] == c;
      }
    }
  }

  /** The hexes of the queue's entries. */
  function Seen(queue: seq<Entry>): (hexes: set<Point>)
    ensures forall k :: 0 <= k < |queue| ==> queue[k].0 in hexes
    decreases |queue|
  {
    if queue == [] then {} else Seen(queue[..|queue| - 1]) + {queue[|queue| - 1].0}
  }

  lemma SeenSnoc(queue: seq<Entry>, e: Entry)
    ensures Seen(queue + [e]) == Seen(queue) + {e.0}
  {
    assert (queue + [e])[..|queue|] == queue;
  }

  /** Every seen hex is the hex of some entry. */
  lemma {:induction false} SeenHas(queue: seq<Entry>, v: Point)
    requires v in Seen(queue)
    ensures exists k :: 0 <= k < |queue| && queue[k].0 == v
    decreases |queue|
  {
    if v != queue[|queue| - 1].0 {
      SeenHas(queue[..|queue| - 1], v);
      var k :| 0 <= k < |queue| - 1 && queue[..|queue| - 1][k].0 == v;
      assert queue[k].0 == v;
    }
  }

  // -----------------------------------------------------------------------
  // The reference search, one shown hex at a time.

  /**
   * Where a search stands: its queue, the hexes it has seen, the entry being
   * expanded and how many of that entry's directions it has tried.
   */
  datatype Search = Search(queue: seq<Entry>, seen: set<Point>, entry: nat, dir: nat)

  /** The search before any hex is shown: the start alone, seen, about to be expanded. */
  function Begin(start: Point): (s: Search)
    ensures s.queue == [(start, 6)] && s.seen == {start} && s.entry == 0 && s.dir == 0
  {
    Search([(start, 6)], {start}, 0, 0)
  }

  /**
   * One more hex shown and declined: the next direction of the entry being
   * expanded is tried; the hex there is queued and seen if it has a building
   * and has not been seen; after an entry's last direction the search moves
   * to the next entry. Once every entry has been expanded nothing changes
   * (nor does it for an entry whose direction is out of range, which no
   * search queues).
   */
  function Show(neighbors: seq<Point>, occupied: set<Point>, s: Search): (next: Search)
    requires |neighbors| == 6
  {
    if s.entry < |s.queue| && s.queue[s.entry].1 <= 6 && s.dir < DirectionCount(s.queue[s.entry].1) then
      var from := s.queue[s.entry].1;
      var d := Direction(from, s.dir);
      var hex := neighbors[d].Add(s.queue[s.entry].0);
      var unseen := hex in occupied && hex !in s.seen;
      var queue := if unseen then s.queue + [(hex, d)] else s.queue;
      var seen := if unseen then s.seen + {hex} else s.seen;
      if s.dir + 1 < DirectionCount(from) then Search(queue, seen, s.entry, s.dir + 1) else Search(queue, seen, s.entry + 1, 0)
    else s
  }

  /** The search about to try direction `dir` of entry `entry`, which has `count` of them, or the next entry's first. */
  function Position(queue: seq<Entry>, seen: set<Point>, entry: nat, dir: nat, count: nat): Search {
    if dir < count then Search(queue, seen, entry, dir) else Search(queue, seen, entry + 1, 0)
  }

  /** Showing the hex in direction j of entry i, in the direction table's terms. */
  lemma ShowTries(neighbors: seq<Point>, occupied: set<Point>, queue: seq<Entry>, seen: set<Point>, i: nat, j: nat)
    requires |neighbors| == 6 && i < |queue| && queue[i].1 <= 6 && j < |FromMap(queue[i].1)|
    ensures var d := FromMap(queue[i].1)[j];
            var hex := neighbors[d].Add(queue[i].0);
            Show(neighbors, occupied, Search(queue, seen, i, j)) ==
              if hex in occupied && hex !in seen then Position(queue + [(hex, d)], seen + {hex}, i, j + 1, |FromMap(queue[i].1)|)
              else Position(queue, seen, i, j + 1, |FromMap(queue[i].1)|)
  {
    FromMapDirection(queue[i].1);
  }

  /** The search from `start` after the first n hexes are shown and declined. */
  function SearchAfter(neighbors: seq<Point>, occupied: set<Point>, start: Point, n: nat): (s: Search)
    requires |neighbors| == 6
    ensures |s.queue| >= 1 && s.queue[0] == (start, 6)
  {
    if n == 0 then Begin(start) else Show(neighbors, occupied, SearchAfter(neighbors, occupied, start, n - 1))
  }

  lemma SearchNext(neighbors: seq<Point>, occupied: set<Point>, start: Point, k: nat, before: Search)
    requires |neighbors| == 6 && before == SearchAfter(neighbors, occupied, start, k)
    ensures SearchAfter(neighbors, occupied, start, k + 1) == Show(neighbors, occupied, before)
  {
  }

  /** Showing a hex at most appends to the queue and adds to the seen hexes. */
  lemma ShowGrows(neighbors: seq<Point>, occupied: set<Point>, s: Search)
    requires |neighbors| == 6
    ensures s.queue <= Show(neighbors, occupied, s).queue && s.seen <= Show(neighbors, occupied, s).seen
  {
  }

  /** Once every hex with a building has been seen, showing one more queues nothing. */
  lemma ShowSaturated(neighbors: seq<Point>, occupied: set<Point>, s: Search)
    requires |neighbors| == 6 && occupied <= s.seen
    ensures Show(neighbors, occupied, s).queue == s.queue && Show(neighbors, occupied, s).seen == s.seen
  {
  }

  /** Showing a hex queues it with the direction it was reached in, which is one of the six. */
  lemma ShowDirections(neighbors: seq<Point>, occupied: set<Point>, s: Search)
    requires |neighbors| == 6 && Directions(s.queue)
    ensures Directions(Show(neighbors, occupied, s).queue)
  {
  }

  /** Every entry the search queues has a direction the direction table knows. */
  lemma {:induction false} SearchDirections(neighbors: seq<Point>, occupied: set<Point>, start: Point, n: nat)
    requires |neighbors| == 6
    ensures Directions(SearchAfter(neighbors, occupied, start, n).queue)
  {
    if n > 0 {
      var k: nat := n - 1;
      SearchDirections(neighbors, occupied, start, k);
      var before := SearchAfter(neighbors, occupied, start, k);
      SearchNext(neighbors, occupied, start, k, before);
      ShowDirections(neighbors, occupied, before);
    }
  }

  /** One more hex shown at most appends to the queue. */
  lemma SearchStepGrows(neighbors: seq<Point>, occupied: set<Point>, start: Point, k: nat)
    requires |neighbors| == 6
    ensures SearchAfter(neighbors, occupied, start, k).queue <= SearchAfter(neighbors, occupied, start, k + 1).queue
  {
    var before := SearchAfter(neighbors, occupied, start, k);
    SearchNext(neighbors, occupied, start, k, before);
    ShowGrows(neighbors, occupied, before);
  }

  /** The queue only grows as more hexes are shown. */
  lemma {:induction false} SearchGrows(neighbors: seq<Point>, occupied: set<Point>, start: Point, m: nat, n: nat)
    requires |neighbors| == 6 && m <= n
    ensures SearchAfter(neighbors, occupied, start, m).queue <= SearchAfter(neighbors, occupied, start, n).queue
    decreases n
  {
    if m < n {
      var k: nat := n - 1;
      SearchGrows(neighbors, occupied, start, m, k);
      SearchStepGrows(neighbors, occupied, start, k);
      PrefixTrans(SearchAfter(neighbors, occupied, start, m).queue, SearchAfter(neighbors, occupied, start, k).queue,
                  SearchAfter(neighbors, occupied, start, n).queue);
    }
  }

  /** Once every entry has been expanded, showing more changes nothing: the search is over. */
  lemma {:induction false} SearchFinished(neighbors: seq<Point>, occupied: set<Point>, start: Point, n: nat, m: nat)
    requires |neighbors| == 6 && n <= m
    requires SearchAfter(neighbors, occupied, start, n).entry >= |SearchAfter(neighbors, occupied, start, n).queue|
    ensures SearchAfter(neighbors, occupied, start, m) == SearchAfter(neighbors, occupied, start, n)
    decreases m
  {
    if n < m {
      var k: nat := m - 1;
      SearchFinished(neighbors, occupied, start, n, k);
    }
  }

  /** With every hex with a building seen, one more hex shown changes neither the queue nor the seen hexes. */
  lemma SearchStepSaturated(neighbors: seq<Point>, occupied: set<Point>, start: Point, k: nat)
    requires |neighbors| == 6 && occupied <= SearchAfter(neighbors, occupied, start, k).seen
    ensures SearchAfter(neighbors, occupied, start, k + 1).queue == SearchAfter(neighbors, occupied, start, k).queue
    ensures SearchAfter(neighbors, occupied, start, k + 1).seen == SearchAfter(neighbors, occupied, start, k).seen
  {
    var before := SearchAfter(neighbors, occupied, start, k);
    SearchNext(neighbors, occupied, start, k, before);
    ShowSaturated(neighbors, occupied, before);
  }

  /** Once every hex with a building has been seen, nothing more is queued. */
  lemma {:induction false} SearchSaturated(neighbors: seq<Point>, occupied: set<Point>, start: Point, n: nat, m: nat)
    requires |neighbors| == 6 && n <= m
    requires occupied <= SearchAfter(neighbors, occupied, start, n).seen
    ensures SearchAfter(neighbors, occupied, start, m).queue == SearchAfter(neighbors, occupied, start, n).queue
    ensures SearchAfter(neighbors, occupied, start, m).seen == SearchAfter(neighbors, occupied, start, n).seen
    decreases m
  {
    if n < m {
      var k: nat := m - 1;
      SearchSaturated(neighbors, occupied, start, n, k);
      SearchStepSaturated(neighbors, occupied, start, k);
    }
  }

  /**
   * Everything a run of the search promises about its calls, the answers
   * and the queue: the queue is the reference queue after the hexes shown
   * and declined, the calls are the hexes its entries show in order, and
   * the search stops at the first call the predicate accepts.
   */
  ghost predicate Outcome(neighbors: seq<Point>, occupied: set<Point>, start: Point, stop: seq<Point> -> bool,
                          calls: seq<Point>, stopped: bool, queue: seq<Entry>)
    requires |neighbors| == 6
  {
    && WellQueued(neighbors, occupied, start, queue)
    && |queue| <= |occupied| + 1
    && calls <= AllCandidates(neighbors, queue)
    && (stopped ==>
         && calls != [] && stop(calls) && Declined(stop, calls[..|calls| - 1])
         && queue == SearchAfter(neighbors, occupied, start, |calls| - 1).queue)
    && (!stopped ==>
         && Declined(stop, calls) && calls == AllCandidates(neighbors, queue)
         && Closed(neighbors, occupied, queue, |queue|)
         && queue == SearchAfter(neighbors, occupied, start, |calls|).queue)
  }

  /** The state of a search: a well-formed queue, at most one entry per hex with a building plus the start, and the set of its hexes. */
  ghost predicate Searching(neighbors: seq<Point>, occupied: set<Point>, start: Point, queue: seq<Entry>, visited: set<Point>)
    requires |neighbors| == 6
  {
    && WellQueued(neighbors, occupied, start, queue)
    && |queue| <= |occupied| + 1
    && visited == Seen(queue) && visited <= occupied + {start} && |visited| == |queue|
  }

  /** Every candidate with a building of the first `upto` entries has been seen. */
  ghost predicate Covered(neighbors: seq<Point>, occupied: set<Point>, queue: seq<Entry>, upto: int, visited: set<Point>)
    requires |neighbors| == 6 && Directions(queue) && 0 <= upto <= |queue|
  {
    forall k, c :: 0 <= k < upto && c in Candidates(neighbors, queue[k]) && c in occupied ==> c in visited
  }

  lemma CoveredClosed(neighbors: seq<Point>, occupied: set<Point>, start: Point, queue: seq<Entry>, visited: set<Point>)
    requires |neighbors| == 6 && Searching(neighbors, occupied, start, queue, visited)
    requires Covered(neighbors, occupied, queue, |queue|, visited)
    ensures Closed(neighbors, occupied, queue, |queue|)
  {
    forall k, c | 0 <= k < |queue| && c in Candidates(neighbors, queue[k]) && c in occupied
      ensures exists l :: 0 <= l < |queue| && queue[l].0 == c
    {
      SeenHas(queue, c);
    }
  }

  lemma CoveredGrow(neighbors: seq<Point>, occupied: set<Point>, queue: seq<Entry>, upto: int, visited: set<Point>,
                    e: Entry, next: Point)
    requires |neighbors| == 6 && Directions(queue) && Directions(queue + [e]) && 0 <= upto <= |queue|
    requires Covered(neighbors, occupied, queue, upto, visited)
    ensures Covered(neighbors, occupied, queue + [e], upto, visited + {next})
  {
    forall k | 0 <= k < upto
      ensures (queue + [e])[k] == queue[k]
    {
    }
  }

  class PathFinder {
    /** The last completed search's queue, kept for the debug drawing. */
    var debugQueue: seq<Entry>

    constructor()
      ensures debugQueue == []
    {
      debugQueue := [];
    }

    /**
     * pathFind. `calls` lists the hexes shown to the predicate, in order;
     * the predicate said yes only to the last one, and only if the search
     * stopped. The calls are the candidates of the queue entries in queue
     * order, cut short where the search stopped, and the queue is exactly
     * the one SearchAfter builds from the hexes shown and declined: every
     * entry is in first-discovery order with the direction it was reached
     * in. A search that runs to the
     * end leaves its queue in debugQueue: it queues every hex with a
     * building that one of its entries tries, each at most once, so it has
     * at most one more entry than there are such hexes. A search that
     * stops leaves debugQueue as it was.
     */
    method PathFind(start: Point, occupied: set<Point>, neighbors: seq<Point>, stop: seq<Point> -> bool)
      returns (calls: seq<Point>, stopped: bool, queue: seq<Entry>)
      requires |neighbors| == 6
      modifies this
      ensures WellQueued(neighbors, occupied, start, queue)
      ensures |queue| <= |occupied| + 1
      ensures calls <= AllCandidates(neighbors, queue)
      ensures stopped ==> calls != [] && stop(calls) && Declined(stop, calls[..|calls| - 1])
      ensures stopped ==> debugQueue == old(debugQueue)
      ensures !stopped ==> Declined(stop, calls) && calls == AllCandidates(neighbors, queue)
      ensures !stopped ==> Closed(neighbors, occupied, queue, |queue|) && debugQueue == queue
      ensures queue == SearchAfter(neighbors, occupied, start, if stopped then |calls| - 1 else |calls|).queue
      ensures !stopped ==> forall m :: |calls| <= m ==> SearchAfter(neighbors, occupied, start, m).queue == queue
    {
      var visited := {start};
      queue := [(start, 6)];
      calls := [];
      stopped := false;
      var i := 0;
      while i < |queue|
        invariant 0 <= i <= |queue|
        invariant Searching(neighbors, occupied, start, queue, visited)
        invariant calls == AllCandidates(neighbors, queue[..i])
        invariant Declined(stop, calls)
        invariant Covered(neighbors, occupied, queue, i, visited)
        invariant debugQueue == old(debugQueue)
        invariant SearchAfter(neighbors, occupied, start, |calls|) == Search(queue, visited, i, 0)
        decreases |occupied| + 1 - i
      {
        calls, stopped, queue, visited := Expand(start, occupied, neighbors, stop, i, calls, queue, visited);
        if stopped {
          AllCandidatesPrefix(neighbors, queue, i + 1);
          return;
        }
        i := i + 1;
      }
      assert queue[..i] == queue;
      CoveredClosed(neighbors, occupied, start, queue, visited);
      forall m | |calls| <= m
        ensures SearchAfter(neighbors, occupied, start, m).queue == queue
      {
        SearchFinished(neighbors, occupied, start, |calls|, m);
      }
      debugQueue := queue;
    }

    /** The inner loop of pathFind: entry i tries its directions in order. */
    method Expand(start: Point, occupied: set<Point>, neighbors: seq<Point>, stop: seq<Point> -> bool, i: nat,
                  calls0: seq<Point>, queue0: seq<Entry>, visited0: set<Point>)
      returns (calls: seq<Point>, stopped: bool, queue: seq<Entry>, visited: set<Point>)
      requires |neighbors| == 6 && i < |queue0|
      requires Searching(neighbors, occupied, start, queue0, visited0)
      requires calls0 == AllCandidates(neighbors, queue0[..i])
      requires Declined(stop, calls0)
      requires Covered(neighbors, occupied, queue0, i, visited0)
      requires SearchAfter(neighbors, occupied, start, |calls0|) == Search(queue0, visited0, i, 0)
      ensures i < |queue0| && queue0 <= queue
      ensures Searching(neighbors, occupied, start, queue, visited)
      ensures stopped ==> calls != [] && stop(calls) && Declined(stop, calls[..|calls| - 1])
      ensures stopped ==> calls <= AllCandidates(neighbors, queue[..i + 1])
      ensures !stopped ==> Declined(stop, calls) && calls == AllCandidates(neighbors, queue[..i + 1])
      ensures !stopped ==> Covered(neighbors, occupied, queue, i + 1, visited)
      ensures stopped ==> SearchAfter(neighbors, occupied, start, |calls| - 1).queue == queue
      ensures !stopped ==> SearchAfter(neighbors, occupied, start, |calls|) == Search(queue, visited, i + 1, 0)
    {
      calls, queue, visited := calls0, queue0, visited0;
      stopped := false;
      var dirs := FromMap(queue0[i].1);
      ghost var candidates := Candidates(neighbors, queue0[i]);
      AllCandidatesStep(neighbors, queue0, i);
      var j := 0;
      while j < |dirs|
        invariant 0 <= j <= |dirs|
        invariant i < |queue0| && queue0 <= queue
        invariant Searching(neighbors, occupied, start, queue, visited)
        invariant calls == calls0 + candidates[..j]
        invariant Declined(stop, calls)
        invariant Covered(neighbors, occupied, queue, i, visited)
        invariant Absorbed(candidates[..j], occupied, visited)
        invariant SearchAfter(neighbors, occupied, start, |calls|) == Position(queue, visited, i, j, |dirs|)
      {
        ghost var calls1, visited1 := calls, visited;
        calls, stopped, queue, visited := Try(start, occupied, neighbors, stop, i, j, queue0, calls, queue, visited);
        SnocPrefix(calls0, candidates, j, calls1, calls);
        if stopped {
          assert |calls| - 1 == |calls1|;
          assert calls[..|calls| - 1] == calls1;
          StopPrefix(neighbors, queue0, queue, i, calls0, j);
          return;
        }
        AbsorbedSnoc(candidates, j, occupied, visited1, visited);
        j := j + 1;
      }
      assert candidates[..j] == candidates;
      ExpandDone(neighbors, occupied, queue0, queue, i, calls0, visited);
    }
  }

  /** Every hex of `hexes` with a building has been seen. */
  ghost predicate Absorbed(hexes: seq<Point>, occupied: set<Point>, visited: set<Point>) {
    forall c :: c in hexes && c in occupied ==> c in visited
  }

  lemma AbsorbedSnoc(hexes: seq<Point>, j: nat, occupied: set<Point>, visited0: set<Point>, visited: set<Point>)
    requires j < |hexes| && Absorbed(hexes[..j], occupied, visited0) && visited0 <= visited
    requires hexes[j] in occupied ==> hexes[j] in visited
    ensures Absorbed(hexes[..j + 1], occupied, visited)
  {
    assert hexes[..j + 1] == hexes[..j] + [hexes[j]];
  }

  /** Where the predicate stops the search, the calls are a prefix of the candidates up to entry i. */
  lemma StopPrefix(neighbors: seq<Point>, queue0: seq<Entry>, queue: seq<Entry>, i: nat, calls0: seq<Point>, j: nat)
    requires |neighbors| == 6 && Directions(queue0) && Directions(queue)
    requires i < |queue0| && queue0 <= queue
    requires calls0 == AllCandidates(neighbors, queue0[..i])
    requires j < |Candidates(neighbors, queue0[i])|
    ensures calls0 + Candidates(neighbors, queue0[i])[..j + 1] <= AllCandidates(neighbors, queue[..i + 1])
  {
    assert queue[..i + 1] == queue0[..i + 1];
    AllCandidatesStep(neighbors, queue0, i);
    PrefixAppend(calls0, Candidates(neighbors, queue0[i]), j + 1);
  }

  /** Once entry i has tried all its directions, the calls cover the entries up to i and so does the seen set. */
  lemma ExpandDone(neighbors: seq<Point>, occupied: set<Point>, queue0: seq<Entry>, queue: seq<Entry>, i: nat,
                   calls0: seq<Point>, visited: set<Point>)
    requires |neighbors| == 6 && Directions(queue0) && Directions(queue)
    requires i < |queue0| && queue0 <= queue
    requires calls0 == AllCandidates(neighbors, queue0[..i])
    requires Covered(neighbors, occupied, queue, i, visited)
    requires Absorbed(Candidates(neighbors, queue0[i]), occupied, visited)
    ensures calls0 + Candidates(neighbors, queue0[i]) == AllCandidates(neighbors, queue[..i + 1])
    ensures Covered(neighbors, occupied, queue, i + 1, visited)
  {
    assert queue[..i + 1] == queue0[..i + 1];
    AllCandidatesStep(neighbors, queue0, i);
    forall k, c | 0 <= k < i + 1 && c in Candidates(neighbors, queue[k]) && c in occupied
      ensures c in visited
    {
      if k == i {
        assert queue[k] == queue0[i];
      }
    }
  }

  /**
   * One step of the inner loop: the j-th candidate of entry i is shown to
   * the predicate; unless that ends the search, it is queued if it has a
   * building and has not been seen.
   */
  method Try(start: Point, occupied: set<Point>, neighbors: seq<Point>, stop: seq<Point> -> bool, i: nat, j: nat,
             queue0: seq<Entry>, calls0: seq<Point>, queue1: seq<Entry>, visited1: set<Point>)
    returns (calls: seq<Point>, stopped: bool, queue: seq<Entry>, visited: set<Point>)
    requires |neighbors| == 6 && i < |queue0| && queue0 <= queue1
    requires Searching(neighbors, occupied, start, queue1, visited1)
    requires Covered(neighbors, occupied, queue1, i, visited1)
    requires Declined(stop, calls0)
    requires j < |FromMap(queue0[i].1)|
    requires SearchAfter(neighbors, occupied, start, |calls0|) == Search(queue1, visited1, i, j)
    ensures calls == calls0 + [Candidates(neighbors, queue0[i])[j]]
    ensures stopped <==> stop(calls)
    ensures !stopped ==> Declined(stop, calls)
    ensures queue0 <= queue
    ensures Searching(neighbors, occupied, start, queue, visited)
    ensures Covered(neighbors, occupied, queue, i, visited)
    ensures visited1 <= visited
    ensures !stopped && Candidates(neighbors, queue0[i])[j] in occupied ==> Candidates(neighbors, queue0[i])[j] in visited
    ensures stopped ==> queue == queue1 && visited == visited1
    ensures !stopped ==>
      SearchAfter(neighbors, occupied, start, |calls|) == Position(queue, visited, i, j + 1, |FromMap(queue0[i].1)|)
  {
    assert queue1[i] == queue0[i];
    var nextFrom := FromMap(queue1[i].1)[j];
    var next := neighbors[nextFrom].Add(queue1[i].0);
    calls := calls0 + [next];
    queue, visited := queue1, visited1;
    stopped := stop(calls);
    if !stopped {
      DeclinedSnoc(stop, calls0, next);
      queue, visited := Visit(start, occupied, neighbors, i, j, queue1, visited1, next, |calls0|);
    }
  }

  /**
   * The second half of one step of the inner loop: a candidate with a
   * building that has not been seen is queued with the direction it was
   * reached in.
   */
  method Visit(start: Point, occupied: set<Point>, neighbors: seq<Point>, i: nat, j: nat,
               queue0: seq<Entry>, visited0: set<Point>, next: Point, ghost shown: nat)
    returns (queue: seq<Entry>, visited: set<Point>)
    requires |neighbors| == 6 && i < |queue0|
    requires Searching(neighbors, occupied, start, queue0, visited0)
    requires Covered(neighbors, occupied, queue0, i, visited0)
    requires j < |FromMap(queue0[i].1)| && next == neighbors[FromMap(queue0[i].1)[j]].Add(queue0[i].0)
    requires SearchAfter(neighbors, occupied, start, shown) == Search(queue0, visited0, i, j)
    ensures queue0 <= queue
    ensures Searching(neighbors, occupied, start, queue, visited)
    ensures Covered(neighbors, occupied, queue, i, visited)
    ensures visited0 <= visited && (next in occupied ==> next in visited)
    ensures SearchAfter(neighbors, occupied, start, shown + 1) == Position(queue, visited, i, j + 1, |FromMap(queue0[i].1)|)
  {
    SearchNext(neighbors, occupied, start, shown, Search(queue0, visited0, i, j));
    ShowTries(neighbors, occupied, queue0, visited0, i, j);
    queue, visited := queue0, visited0;
    if next in occupied && next !in visited {
      var nextFrom := FromMap(queue[i].1)[j];
      QueueNext(neighbors, occupied, start, queue, visited, i, j, next);
      CoveredGrow(neighbors, occupied, queue, i, visited, (next, nextFrom), next);
      visited := visited + {next};
      queue := queue + [(next, nextFrom)];
    }
  }

  /** Appending a hex tried by entry i and not yet in the queue keeps the queue well formed. */
  lemma QueueShape(neighbors: seq<Point>, occupied: set<Point>, start: Point, queue: seq<Entry>,
                   i: nat, j: nat, next: Point)
    requires |neighbors| == 6 && i < |queue|
    requires WellQueued(neighbors, occupied, start, queue)
    requires j < |FromMap(queue[i].1)| && next == neighbors[FromMap(queue[i].1)[j]].Add(queue[i].0)
    requires next in occupied && next !in Seen(queue)
    ensures WellQueued(neighbors, occupied, start, queue + [(next, FromMap(queue[i].1)[j])])
  {
    var q := queue + [(next, FromMap(queue[i].1)[j])];
    assert Directions(q);
    forall k | 1 <= k < |q|
      ensures q[k].0 in occupied && Reached(neighbors, q, k)
    {
      if k < |queue| {
        assert Reached(neighbors, queue, k);
        var p :| 0 <= p < k && QueuedFrom(neighbors, queue, p, k);
        assert QueuedFrom(neighbors, q, p, k);
      } else {
        assert QueuedFrom(neighbors, q, i, k);
      }
    }
    forall k, l | 0 <= k < l < |q|
      ensures Apart(q, k, l)
    {
      if l == |queue| {
        assert queue[k].0 in Seen(queue);
      } else {
        assert Apart(queue, k, l);
      }
    }
  }

  /** Appending an unseen hex with a building, tried by entry i, keeps the search state well formed. */
  lemma QueueNext(neighbors: seq<Point>, occupied: set<Point>, start: Point, queue: seq<Entry>, visited: set<Point>,
                  i: nat, j: nat, next: Point)
    requires |neighbors| == 6 && i < |queue|
    requires Searching(neighbors, occupied, start, queue, visited)
    requires j < |FromMap(queue[i].1)| && next == neighbors[FromMap(queue[i].1)[j]].Add(queue[i].0)
    requires next in occupied && next !in visited
    ensures Searching(neighbors, occupied, start, queue + [(next, FromMap(queue[i].1)[j])], visited + {next})
  {
    var q := queue + [(next, FromMap(queue[i].1)[j])];
    QueueShape(neighbors, occupied, start, queue, i, j, next);
    SeenSnoc(queue, q[|queue|]);
    SubsetSize(visited + {next}, occupied + {start});
    AddOne(occupied, start);
  }

  lemma SnocPrefix<T>(a: seq<T>, b: seq<T>, j: nat, c0: seq<T>, c1: seq<T>)
    requires j < |b| && c0 == a + b[..j] && c1 == c0 + [b[j]]
    ensures c1 == a + b[..j + 1]
  {
    assert b[..j + 1] == b[..j] + [b[j]];
  }

  lemma PrefixAppend<T>(a: seq<T>, b: seq<T>, n: nat)
    requires n <= |b|
    ensures a + b[..n] <= a + b
  {
    assert (a + b)[..|a| + n] == a + b[..n];
  }

  lemma PrefixTrans<T>(a: seq<T>, b: seq<T>, c: seq<T>)
    requires a <= b && b <= c
    ensures a <= c
  {
    assert c[..|a|] == b[..|a|];
  }

  lemma AddOne<T>(s: set<T>, x: T)
    ensures |s + {x}| <= |s| + 1
  {
    if x in s {
      assert s + {x} == s;
    }
  }
}
