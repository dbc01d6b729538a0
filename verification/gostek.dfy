/**
 * The carriers (src/gostek.ts). A gostek is a Point object of its own, so
 * ten gosteks on one hex are ten gosteks; here a gostek is an identity
 * number and a position. The free Set, in insertion order, is a list
 * without repeats; the busy Map sends a gostek to the state the caller's
 * `getGostekState` computes for it (the parameter `state`).
 *
 * gostekUseNClosest hands the search a visitor. The visitor looks up each
 * hex shown to it in a table from positions to free gosteks, moves the
 * gostek it finds from free to busy, and charges the budget `left`. Hexes
 * are keyed by the point rather than by its hash, which is injective
 * (Hex.HashInjective). What the visitor does to the two collections depends
 * only on the hexes shown to it so far, so its effects are replayed over
 * the search's calls, in order, once the search returns.
 */
module Gostek {
  import opened Hex
  import PathFinder

  datatype Gostek = Gostek(id: nat, position: Point)

  /** How many gosteks a reset creates. */
  const GostekCount: nat := 10

  /** Where a reset puts every gostek. */
  function Home(): Point {
    At(2, 0)
  }

  /** The position a moved gostek's state is computed from: one step along (1, 1). */
  function Outset(gostek: Gostek): Point {
    gostek.position.Add(At(1, 1))
  }

  predicate Distinct(gosteks: seq<Gostek>) {
    forall i, j :: 0 <= i < j < |gosteks| ==> gosteks[i] != gosteks[j]
  }

  function Min(a: int, b: int): int {
    if a <= b then a else b
  }

  /** The starting budget `left`: Math.min(n, freeGosteks.size). */
  function Budget(n: int, free: seq<Gostek>): int {
    Min(n, |free|)
  }

  // -----------------------------------------------------------------------
  // The position table.

  /**
   * freeGostekHashMap: each free gostek under its position, in list order,
   * so a later gostek on the same hex replaces an earlier one.
   */
  function Table(free: seq<Gostek>): (table: map<Point, Gostek>)
    ensures forall p | p in table :: table[p] in free && table[p].position == p
    decreases |free|
  {
    if free == [] then map[]
    else
      var last := free[|free| - 1];
      Table(free[..|free| - 1])[last.position := last]
  }

  /** No gostek later in the list stands on the same hex as gostek i. */
  predicate LastOnHex(free: seq<Gostek>, i: int)
    requires 0 <= i < |free|
  {
    forall j :: i < j < |free| ==> free[j].position != free[i].position
  }

  /**
   * The table holds exactly the hexes of the free gosteks, and on each the
   * last gostek of the list standing there.
   */
  lemma {:induction false} TableMeaning(free: seq<Gostek>)
    ensures forall i :: 0 <= i < |free| ==> free[i].position in Table(free)
    ensures forall i :: 0 <= i < |free| && LastOnHex(free, i) ==> Table(free)[free[i].position] == free[i]
    decreases |free|
  {
    if free != [] {
      var init := free[..|free| - 1];
      var last := free[|free| - 1];
      TableMeaning(init);
      forall i | 0 <= i < |free| && LastOnHex(free, i)
        ensures Table(free)[free[i].position] == free[i]
      {
        if i < |free| - 1 {
          assert free[i] == init[i];
          assert free[|free| - 1].position != free[i].position;
          assert LastOnHex(init, i);
        }
      }
    }
  }

  // -----------------------------------------------------------------------
  // What the visitor does, as a function of the hexes shown to it.

  /** The gosteks the visitor has moved after being shown `calls`. */
  function Moved(table: map<Point, Gostek>, calls: seq<Point>): set<Gostek>
    decreases |calls|
  {
    if calls == [] then {}
    else
      var last := calls[|calls| - 1];
      Moved(table, calls[..|calls| - 1]) + if last in table then {table[last]} else {}
  }

  /** A gostek is moved exactly when some hex shown to the visitor holds it in the table. */
  lemma {:induction false} MovedMeaning(table: map<Point, Gostek>, calls: seq<Point>, gostek: Gostek)
    ensures gostek in Moved(table, calls) <==>
      exists k :: 0 <= k < |calls| && calls[k] in table && table[calls[k]] == gostek
    decreases |calls|
  {
    if calls != [] {
      var init := calls[..|calls| - 1];
      MovedMeaning(table, init, gostek);
      if gostek in Moved(table, init) {
        var k :| 0 <= k < |init| && init[k] in table && table[init[k]] == gostek;
        assert calls[k] == init[k];
      } else if exists k :: 0 <= k < |calls| && calls[k] in table && table[calls[k]] == gostek {
        var k :| 0 <= k < |calls| && calls[k] in table && table[calls[k]] == gostek;
        if k < |init| {
          assert init[k] == calls[k];
        }
      }
    }
  }

  /** Every gostek the visitor moves was free when the table was built. */
  lemma {:induction false} MovedWereFree(free: seq<Gostek>, calls: seq<Point>)
    ensures forall gostek | gostek in Moved(Table(free), calls) :: gostek in free
    decreases |calls|
  {
    if calls != [] {
      MovedWereFree(free, calls[..|calls| - 1]);
    }
  }

  /**
   * `left -= 1` as written: every time the visitor is shown a hex of the
   * table it charges the budget, also when that hex's gostek has already
   * been moved.
   */
  function ChargesAsWritten(table: map<Point, Gostek>, calls: seq<Point>): nat
    decreases |calls|
  {
    if calls == [] then 0
    else ChargesAsWritten(table, calls[..|calls| - 1]) + if calls[|calls| - 1] in table then 1 else 0
  }

  /** The corrected charge: showing a hex costs one only while its gostek is still free. */
  function Charges(table: map<Point, Gostek>, calls: seq<Point>): nat
    decreases |calls|
  {
    if calls == [] then 0
    else
      var init, last := calls[..|calls| - 1], calls[|calls| - 1];
      Charges(table, init) + if last in table && table[last] !in Moved(table, init) then 1 else 0
  }

  /** The corrected charge counts the gosteks moved. */
  lemma {:induction false} ChargesCountMoved(table: map<Point, Gostek>, calls: seq<Point>)
    ensures Charges(table, calls) == |Moved(table, calls)|
    decreases |calls|
  {
    if calls != [] {
      ChargesCountMoved(table, calls[..|calls| - 1]);
    }
  }

  /** As written, the budget is charged at least once per gostek moved. */
  lemma {:induction false} MovedAtMostCharged(table: map<Point, Gostek>, calls: seq<Point>)
    ensures |Moved(table, calls)| <= ChargesAsWritten(table, calls)
    decreases |calls|
  {
    if calls != [] {
      var init := calls[..|calls| - 1];
      MovedAtMostCharged(table, init);
      var last := calls[|calls| - 1];
      if last in table {
        assert Moved(table, calls) == Moved(table, init) + {table[last]};
      } else {
        assert Moved(table, calls) == Moved(table, init);
      }
    }
  }

  /**
   * The visitor as written answers true, ending the search, when the hex
   * shown holds a gostek of the table and that brings the budget to zero.
   */
  function StopsAsWritten(table: map<Point, Gostek>, left: int, calls: seq<Point>): bool {
    calls != [] && calls[|calls| - 1] in table && left - ChargesAsWritten(table, calls) == 0
  }

  /** The corrected visitor: a gostek already moved is skipped and neither charges nor stops. */
  function Stops(table: map<Point, Gostek>, left: int, calls: seq<Point>): bool {
    && calls != []
    && calls[|calls| - 1] in table
    && table[calls[|calls| - 1]] !in Moved(table, calls[..|calls| - 1])
    && left - Charges(table, calls) == 0
  }

  function VisitorAsWritten(table: map<Point, Gostek>, left: int): seq<Point> -> bool {
    calls => StopsAsWritten(table, left, calls)
  }

  function Visitor(table: map<Point, Gostek>, left: int): seq<Point> -> bool {
    calls => Stops(table, left, calls)
  }

  /** A visitor that declined every prefix of the calls declined every prefix of the calls before the last. */
  lemma DeclinedInit(stop: seq<Point> -> bool, calls: seq<Point>)
    requires calls != [] && PathFinder.Declined(stop, calls)
    ensures PathFinder.Declined(stop, calls[..|calls| - 1])
  {
    var init := calls[..|calls| - 1];
    forall m | 1 <= m <= |init|
      ensures !PathFinder.StopsAt(stop, init, m)
    {
      assert init[..m] == calls[..m];
      assert !PathFinder.StopsAt(stop, calls, m);
    }
  }

  /** While the corrected visitor keeps declining, fewer gosteks than the budget have been moved. */
  lemma {:induction false} ChargesBelowBudget(table: map<Point, Gostek>, left: int, calls: seq<Point>)
    requires left >= 1 && PathFinder.Declined(Visitor(table, left), calls)
    ensures Charges(table, calls) < left
    decreases |calls|
  {
    if calls != [] {
      DeclinedInit(Visitor(table, left), calls);
      ChargesBelowBudget(table, left, calls[..|calls| - 1]);
      assert calls[..|calls|] == calls;
      assert !PathFinder.StopsAt(Visitor(table, left), calls, |calls|);
    }
  }

  /** While the visitor as written keeps declining, it has charged less than the budget. */
  lemma {:induction false} ChargesAsWrittenBelowBudget(table: map<Point, Gostek>, left: int, calls: seq<Point>)
    requires left >= 1 && PathFinder.Declined(VisitorAsWritten(table, left), calls)
    ensures ChargesAsWritten(table, calls) < left
    decreases |calls|
  {
    if calls != [] {
      DeclinedInit(VisitorAsWritten(table, left), calls);
      ChargesAsWrittenBelowBudget(table, left, calls[..|calls| - 1]);
      assert calls[..|calls|] == calls;
      assert !PathFinder.StopsAt(VisitorAsWritten(table, left), calls, |calls|);
    }
  }

  /**
   * When the corrected visitor ends the search, having declined before, the
   * budget was at least one and exactly that many gosteks have been moved.
   */
  lemma StoppedMeetsBudget(table: map<Point, Gostek>, left: int, calls: seq<Point>)
    requires calls != [] && Stops(table, left, calls)
    requires PathFinder.Declined(Visitor(table, left), calls[..|calls| - 1])
    ensures left >= 1 && |Moved(table, calls)| == left
  {
    ChargesCountMoved(table, calls);
  }

  /** A search the corrected visitor has not ended has moved fewer gosteks than a positive budget. */
  lemma DeclinedBelowBudget(table: map<Point, Gostek>, left: int, calls: seq<Point>)
    requires left >= 1 && PathFinder.Declined(Visitor(table, left), calls)
    ensures |Moved(table, calls)| < left
  {
    ChargesBelowBudget(table, left, calls);
    ChargesCountMoved(table, calls);
  }

  /** When the visitor as written ends the search, its charges have used up the budget. */
  lemma StoppedAsWrittenSpendsBudget(table: map<Point, Gostek>, left: int, calls: seq<Point>)
    requires calls != [] && StopsAsWritten(table, left, calls)
    requires PathFinder.Declined(VisitorAsWritten(table, left), calls[..|calls| - 1])
    ensures left >= 1 && ChargesAsWritten(table, calls) == left && |Moved(table, calls)| <= left
  {
    MovedAtMostCharged(table, calls);
  }

  // -----------------------------------------------------------------------
  // The collections after the visitor's effects.

  /** Set.prototype.delete on the free list. */
  function Delete(free: seq<Gostek>, gostek: Gostek): (rest: seq<Gostek>)
    ensures forall g :: g in rest <==> g in free && g != gostek
    decreases |free|
  {
    if free == [] then []
    else (if free[0] == gostek then [] else [free[0]]) + Delete(free[1..], gostek)
  }

  /** Deleting keeps the list without repeats and removes one entry exactly when the gostek was there. */
  lemma {:induction false} DeleteShape(free: seq<Gostek>, gostek: Gostek)
    requires Distinct(free)
    ensures Distinct(Delete(free, gostek))
    ensures |Delete(free, gostek)| == if gostek in free then |free| - 1 else |free|
    decreases |free|
  {
    if free != [] {
      var rest := free[1..];
      assert Distinct(rest) by {
        forall i, j | 0 <= i < j < |rest|
          ensures rest[i] != rest[j]
        {
          assert rest[i] == free[i + 1] && rest[j] == free[j + 1];
        }
      }
      DeleteShape(rest, gostek);
      assert free[0] !in rest by {
        forall j | 0 <= j < |rest|
          ensures rest[j] != free[0]
        {
          assert rest[j] == free[j + 1];
        }
      }
      assert gostek in free <==> gostek == free[0] || gostek in rest by {
        assert free == [free[0]] + rest;
      }
      if free[0] != gostek {
        var r := [free[0]] + Delete(rest, gostek);
        forall i, j | 0 <= i < j < |r|
          ensures r[i] != r[j]
        {
          assert r[j] == Delete(rest, gostek)[j - 1];
          if i > 0 {
            assert r[i] == Delete(rest, gostek)[i - 1];
          }
        }
      }
    }
  }

  /** The free list after the visitor was shown `calls`. */
  function FreeAfter(free: seq<Gostek>, table: map<Point, Gostek>, calls: seq<Point>): seq<Gostek>
    decreases |calls|
  {
    if calls == [] then free
    else
      var before, last := FreeAfter(free, table, calls[..|calls| - 1]), calls[|calls| - 1];
      if last in table then Delete(before, table[last]) else before
  }

  /** The busy map after the visitor was shown `calls`. */
  function BusyAfter<S>(busy: map<Gostek, S>, table: map<Point, Gostek>, calls: seq<Point>, state: Point -> S): map<Gostek, S>
    decreases |calls|
  {
    if calls == [] then busy
    else
      var before, last := BusyAfter(busy, table, calls[..|calls| - 1], state), calls[|calls| - 1];
      if last in table then before[table[last] := state(Outset(table[last]))] else before
  }

  /** Showing the visitor one more hex moves that hex's gostek, if the table has one. */
  lemma AfterStep<S>(free: seq<Gostek>, busy: map<Gostek, S>, table: map<Point, Gostek>, calls: seq<Point>, k: nat,
                     state: Point -> S, free1: seq<Gostek>, busy1: map<Gostek, S>, free2: seq<Gostek>, busy2: map<Gostek, S>)
    requires k < |calls|
    requires free1 == FreeAfter(free, table, calls[..k]) && busy1 == BusyAfter(busy, table, calls[..k], state)
    requires calls[k] in table ==> free2 == Delete(free1, table[calls[k]]) && busy2 == busy1[table[calls[k]] := state(Outset(table[calls[k]]))]
    requires calls[k] !in table ==> free2 == free1 && busy2 == busy1
    ensures free2 == FreeAfter(free, table, calls[..k + 1]) && busy2 == BusyAfter(busy, table, calls[..k + 1], state)
  {
    assert calls[..k + 1][..k] == calls[..k];
  }

  /** The free gosteks afterwards are the free gosteks that were not moved, still without repeats. */
  lemma {:induction false} FreeAfterMeaning(free: seq<Gostek>, table: map<Point, Gostek>, calls: seq<Point>)
    requires Distinct(free)
    ensures forall g :: g in FreeAfter(free, table, calls) <==> g in free && g !in Moved(table, calls)
    ensures Distinct(FreeAfter(free, table, calls))
    decreases |calls|
  {
    if calls != [] {
      var init := calls[..|calls| - 1];
      FreeAfterMeaning(free, table, init);
      if calls[|calls| - 1] in table {
        DeleteShape(FreeAfter(free, table, init), table[calls[|calls| - 1]]);
      }
    }
  }

  /** The free list shrinks by exactly the number of gosteks moved. */
  lemma {:induction false} FreeAfterSize(free: seq<Gostek>, calls: seq<Point>)
    requires Distinct(free)
    ensures |FreeAfter(free, Table(free), calls)| == |free| - |Moved(Table(free), calls)|
    decreases |calls|
  {
    var table := Table(free);
    if calls != [] {
      var init, last := calls[..|calls| - 1], calls[|calls| - 1];
      FreeAfterSize(free, init);
      FreeAfterMeaning(free, table, init);
      ChargesCountMoved(table, init);
      ChargesCountMoved(table, calls);
      if last in table {
        DeleteShape(FreeAfter(free, table, init), table[last]);
      }
    }
  }

  /**
   * The busy map afterwards holds the busy gosteks and the moved ones; each
   * moved gostek's state is computed from its position plus (1, 1), and
   * the other busy gosteks keep theirs.
   */
  lemma {:induction false} BusyAfterMeaning<S>(busy: map<Gostek, S>, table: map<Point, Gostek>, calls: seq<Point>, state: Point -> S)
    ensures BusyAfter(busy, table, calls, state).Keys == busy.Keys + Moved(table, calls)
    ensures forall g | g in Moved(table, calls) :: BusyAfter(busy, table, calls, state)[g] == state(Outset(g))
    ensures forall g | g in busy && g !in Moved(table, calls) :: BusyAfter(busy, table, calls, state)[g] == busy[g]
    decreases |calls|
  {
    if calls != [] {
      BusyAfterMeaning(busy, table, calls[..|calls| - 1], state);
    }
  }

  // -----------------------------------------------------------------------
  // The module's two collections.

  class Gosteks<S> {
    var free: seq<Gostek>
    var busy: map<Gostek, S>

    /** No gostek is free twice, and no free gostek is busy. */
    ghost predicate Valid()
      reads this
    {
      Distinct(free) && forall g :: g in free ==> g !in busy
    }

    constructor()
      ensures Valid() && free == [] && busy == map[]
    {
      free := [];
      busy := map[];
    }

    /** gostekHasFree: some gostek is free. */
    function HasFree(): (has: bool)
      reads this
      ensures has <==> exists g :: g in free
    {
      assert |free| > 0 ==> free[0] in free;
      |free| > 0
    }

    /** gostekReset: both collections emptied, then ten new gosteks on (2, 0). */
    method Reset()
      modifies this
      ensures Valid() && HasFree()
      ensures |free| == GostekCount && busy == map[]
      ensures forall i :: 0 <= i < |free| ==> free[i] == Gostek(i, Home())
    {
      free := [];
      busy := map[];
      for index := 0 to GostekCount
        invariant |free| == index && busy == map[]
        invariant forall i :: 0 <= i < index ==> free[i] == Gostek(i, Home())
      {
        free := free + [Gostek(index, Home())];
      }
    }

    /**
     * The search with a visitor, and the visitor's effects: each hex shown
     * that holds a gostek of the table moves that gostek from free to busy.
     */
    method Allocate(finder: PathFinder.PathFinder, hex: Point, occupied: set<Point>, neighbors: seq<Point>,
                    state: Point -> S, table: map<Point, Gostek>, visit: seq<Point> -> bool)
      returns (calls: seq<Point>, stopped: bool, queue: seq<PathFinder.Entry>)
      requires |neighbors| == 6
      modifies this, finder
      ensures PathFinder.Outcome(neighbors, occupied, hex, visit, calls, stopped, queue)
      ensures finder.debugQueue == if stopped then old(finder.debugQueue) else queue
      ensures free == FreeAfter(old(free), table, calls)
      ensures busy == BusyAfter(old(busy), table, calls, state)
    {
      calls, stopped, queue := finder.PathFind(hex, occupied, neighbors, visit);
      Replay(table, calls, state);
    }

    /** The visitor's effects, call by call: the gostek on each hex shown is moved from free to busy. */
    method Replay(table: map<Point, Gostek>, calls: seq<Point>, state: Point -> S)
      modifies this
      ensures free == FreeAfter(old(free), table, calls)
      ensures busy == BusyAfter(old(busy), table, calls, state)
    {
      var k := 0;
      while k < |calls|
        invariant 0 <= k <= |calls|
        invariant free == FreeAfter(old(free), table, calls[..k])
        invariant busy == BusyAfter(old(busy), table, calls[..k], state)
      {
        var shown := calls[k];
        ghost var free1, busy1 := free, busy;
        if shown in table {
          var gostek := table[shown];
          free := Delete(free, gostek);
          busy := busy[gostek := state(Outset(gostek))];
        }
        AfterStep(old(free), old(busy), table, calls, k, state, free1, busy1, free, busy);
        k := k + 1;
      }
      assert calls[..k] == calls;
    }

    /**
     * gostekUseNClosest with the corrected visitor. The budget is
     * min(n, number of free gosteks); with a budget of 0 nothing happens.
     * Otherwise the search runs from `hex`, and the gosteks on the hexes it
     * shows are moved to busy, each under the state computed from its
     * position plus (1, 1). The search ends exactly when the budget's worth
     * of gosteks has been moved; a negative budget never ends it.
     */
    method UseNClosest(finder: PathFinder.PathFinder, hex: Point, n: int, occupied: set<Point>,
                       neighbors: seq<Point>, state: Point -> S)
      returns (calls: seq<Point>, stopped: bool, queue: seq<PathFinder.Entry>)
      requires Valid() && HasFree() && |neighbors| == 6
      modifies this, finder
      ensures Valid()
      ensures Budget(n, old(free)) == 0 ==>
        calls == [] && !stopped && free == old(free) && busy == old(busy) && finder.debugQueue == old(finder.debugQueue)
      ensures Budget(n, old(free)) != 0 ==>
        PathFinder.Outcome(neighbors, occupied, hex, Visitor(Table(old(free)), Budget(n, old(free))), calls, stopped, queue)
      ensures free == FreeAfter(old(free), Table(old(free)), calls)
      ensures busy == BusyAfter(old(busy), Table(old(free)), calls, state)
      ensures stopped ==> |Moved(Table(old(free)), calls)| == Budget(n, old(free))
      ensures !stopped && Budget(n, old(free)) >= 1 ==> |Moved(Table(old(free)), calls)| < Budget(n, old(free))
      ensures Budget(n, old(free)) < 0 ==> !stopped
      ensures |free| == |old(free)| - |Moved(Table(old(free)), calls)|
    {
      var left := Budget(n, free);
      var table := Table(free);
      ghost var free0, busy0 := free, busy;
      calls, stopped, queue := [], false, [];
      if left == 0 {
        return;
      }
      calls, stopped, queue := Allocate(finder, hex, occupied, neighbors, state, table, Visitor(table, left));
      FreeAfterMeaning(free0, table, calls);
      BusyAfterMeaning(busy0, table, calls, state);
      FreeAfterSize(free0, calls);
      if stopped {
        StoppedMeetsBudget(table, left, calls);
      } else if left >= 1 {
        DeclinedBelowBudget(table, left, calls);
      }
    }

    /**
     * gostekUseNClosest as written: the same, except that the visitor
     * charges the budget on every showing of a table hex, so the search
     * ends once the budget's worth of showings has been charged.
     */
    method UseNClosestAsWritten(finder: PathFinder.PathFinder, hex: Point, n: int, occupied: set<Point>,
                                neighbors: seq<Point>, state: Point -> S)
      returns (calls: seq<Point>, stopped: bool, queue: seq<PathFinder.Entry>)
      requires Valid() && HasFree() && |neighbors| == 6
      modifies this, finder
      ensures Valid()
      ensures Budget(n, old(free)) == 0 ==>
        calls == [] && !stopped && free == old(free) && busy == old(busy) && finder.debugQueue == old(finder.debugQueue)
      ensures Budget(n, old(free)) != 0 ==>
        PathFinder.Outcome(neighbors, occupied, hex, VisitorAsWritten(Table(old(free)), Budget(n, old(free))), calls, stopped, queue)
      ensures free == FreeAfter(old(free), Table(old(free)), calls)
      ensures busy == BusyAfter(old(busy), Table(old(free)), calls, state)
      ensures stopped ==> ChargesAsWritten(Table(old(free)), calls) == Budget(n, old(free))
      ensures stopped ==> |Moved(Table(old(free)), calls)| <= Budget(n, old(free))
      ensures !stopped && Budget(n, old(free)) >= 1 ==> ChargesAsWritten(Table(old(free)), calls) < Budget(n, old(free))
    {
      var left := Budget(n, free);
      var table := Table(free);
      ghost var free0, busy0 := free, busy;
      calls, stopped, queue := [], false, [];
      if left == 0 {
        return;
      }
      calls, stopped, queue := Allocate(finder, hex, occupied, neighbors, state, table, VisitorAsWritten(table, left));
      FreeAfterMeaning(free0, table, calls);
      BusyAfterMeaning(busy0, table, calls, state);
      if stopped {
        StoppedAsWrittenSpendsBudget(table, left, calls);
      } else if left >= 1 {
        ChargesAsWrittenBelowBudget(table, left, calls);
      }
    }
  }

  // -----------------------------------------------------------------------
  // The double charge.

  /**
   * The queue of a search from `start` whose neighbours in directions 0 and
   * 1 have buildings: the start, then those two, reached in directions 0
   * and 1.
   */
  function TwoBuildings(neighbors: seq<Point>, start: Point): (queue: seq<PathFinder.Entry>)
    requires |neighbors| == 6
    ensures PathFinder.Directions(queue)
  {
    [(start, 6), (neighbors[0].Add(start), 0), (neighbors[1].Add(start), 1)]
  }

  /** The hex two steps out from the start, one step in direction 0 and one in direction 1. */
  function Corner(neighbors: seq<Point>, start: Point): Point
    requires |neighbors| == 6
  {
    neighbors[1].Add(neighbors[0].Add(start))
  }

  /**
   * That search shows the six neighbours of the start, then three hexes from
   * each of the two buildings; the corner is the last hex shown from the
   * first building and the first shown from the second.
   */
  lemma CornerShownTwice(neighbors: seq<Point>, start: Point)
    requires |neighbors| == 6
    ensures var shown := PathFinder.AllCandidates(neighbors, TwoBuildings(neighbors, start));
      && |shown| == 12
      && (forall k :: 0 <= k < 6 ==> shown[k] == neighbors[k].Add(start))
      && shown[6] == neighbors[5].Add(neighbors[0].Add(start))
      && shown[7] == neighbors[0].Add(neighbors[0].Add(start))
      && shown[8] == Corner(neighbors, start)
      && shown[9] == Corner(neighbors, start)
  {
    var a, b := neighbors[0].Add(start), neighbors[1].Add(start);
    ThreeEntries(neighbors, (start, 6), (a, 0), (b, 1));
    var c0, c1, c2 := PathFinder.Candidates(neighbors, (start, 6)), PathFinder.Candidates(neighbors, (a, 0)),
                      PathFinder.Candidates(neighbors, (b, 1));
    ShownAround(neighbors, start, a, b);
    ThreeParts(c0 + c1 + c2, c0, c1, c2);
  }

  /** What each entry of the two-building queue shows, entry by entry. */
  lemma ShownAround(neighbors: seq<Point>, start: Point, a: Point, b: Point)
    requires |neighbors| == 6 && a == neighbors[0].Add(start) && b == neighbors[1].Add(start)
    ensures forall k :: 0 <= k < 6 ==> PathFinder.Candidates(neighbors, (start, 6))[k] == neighbors[k].Add(start)
    ensures PathFinder.Candidates(neighbors, (a, 0))[0] == neighbors[5].Add(a)
    ensures PathFinder.Candidates(neighbors, (a, 0))[1] == neighbors[0].Add(a)
    ensures PathFinder.Candidates(neighbors, (a, 0))[2] == Corner(neighbors, start)
    ensures PathFinder.Candidates(neighbors, (b, 1))[0] == Corner(neighbors, start)
  {
    assert PathFinder.FromMap(6) == [0, 1, 2, 3, 4, 5];
    assert PathFinder.FromMap(0) == [5, 0, 1];
    assert PathFinder.FromMap(1) == [0, 1, 2];
    CornerBothWays(neighbors[0], neighbors[1], start);
  }

  /** Two steps in two directions reach the same hex in either order. */
  lemma CornerBothWays(first: Point, second: Point, start: Point)
    ensures second.Add(first.Add(start)) == first.Add(second.Add(start))
  {
  }

  /** Where the parts of a concatenation of six, three and three hexes land. */
  lemma ThreeParts(whole: seq<Point>, c0: seq<Point>, c1: seq<Point>, c2: seq<Point>)
    requires |c0| == 6 && |c1| == 3 && |c2| == 3 && whole == c0 + c1 + c2
    ensures |whole| == 12
    ensures forall k :: 0 <= k < 6 ==> whole[k] == c0[k]
    ensures whole[6] == c1[0] && whole[7] == c1[1] && whole[8] == c1[2] && whole[9] == c2[0]
  {
  }

  /** The hexes a three-entry queue shows are those of its entries in order. */
  lemma ThreeEntries(neighbors: seq<Point>, e0: PathFinder.Entry, e1: PathFinder.Entry, e2: PathFinder.Entry)
    requires |neighbors| == 6 && e0.1 <= 6 && e1.1 <= 6 && e2.1 <= 6
    ensures PathFinder.Directions([e0, e1, e2])
    ensures PathFinder.AllCandidates(neighbors, [e0, e1, e2]) ==
      PathFinder.Candidates(neighbors, e0) + PathFinder.Candidates(neighbors, e1) + PathFinder.Candidates(neighbors, e2)
  {
    var c0, c1 := PathFinder.Candidates(neighbors, e0), PathFinder.Candidates(neighbors, e1);
    CandidatesSnoc(neighbors, [], e0, [], [e0]);
    CandidatesSnoc(neighbors, [e0], e1, c0, [e0, e1]);
    CandidatesSnoc(neighbors, [e0, e1], e2, c0 + c1, [e0, e1, e2]);
  }

  lemma CandidatesSnoc(neighbors: seq<Point>, init: seq<PathFinder.Entry>, e: PathFinder.Entry,
                       before: seq<Point>, queue: seq<PathFinder.Entry>)
    requires |neighbors| == 6 && PathFinder.Directions(init) && e.1 <= 6 && queue == init + [e]
    requires PathFinder.AllCandidates(neighbors, init) == before
    ensures PathFinder.Directions(queue)
    ensures PathFinder.AllCandidates(neighbors, queue) == before + PathFinder.Candidates(neighbors, e)
  {
    assert queue[..|queue| - 1] == init;
  }

  /** The hexes with a building in the double-charge scenario: the start's neighbours in directions 0 and 1. */
  function TwoBuilt(neighbors: seq<Point>, start: Point): set<Point>
    requires |neighbors| == 6
  {
    {neighbors[0].Add(start), neighbors[1].Add(start)}
  }

  /** The free gosteks of the scenario: one on the corner, one on `far`. */
  function TwoFree(neighbors: seq<Point>, start: Point, far: Point): seq<Gostek>
    requires |neighbors| == 6
  {
    [Gostek(0, Corner(neighbors, start)), Gostek(1, far)]
  }

  /**
   * The search over those two buildings queues them at the first two hexes
   * it shows and nothing after: its queue is always a prefix of the
   * two-building queue, and that whole queue from the second hex on.
   */
  lemma TwoBuildingsSearch(neighbors: seq<Point>, start: Point, c: nat)
    requires |neighbors| == 6 && neighbors[0] != neighbors[1]
    requires neighbors[0].Add(start) != start && neighbors[1].Add(start) != start
    ensures PathFinder.SearchAfter(neighbors, TwoBuilt(neighbors, start), start, c).queue <= TwoBuildings(neighbors, start)
    ensures c >= 2 ==> PathFinder.SearchAfter(neighbors, TwoBuilt(neighbors, start), start, c).queue == TwoBuildings(neighbors, start)
  {
    var occupied := TwoBuilt(neighbors, start);
    var a, b := neighbors[0].Add(start), neighbors[1].Add(start);
    assert PathFinder.FromMap(6) == [0, 1, 2, 3, 4, 5];
    var first := PathFinder.SearchAfter(neighbors, occupied, start, 0);
    PathFinder.SearchNext(neighbors, occupied, start, 0, first);
    var second := PathFinder.SearchAfter(neighbors, occupied, start, 1);
    assert second == PathFinder.Search([(start, 6), (a, 0)], {start, a}, 0, 1);
    PathFinder.SearchNext(neighbors, occupied, start, 1, second);
    var third := PathFinder.SearchAfter(neighbors, occupied, start, 2);
    assert third == PathFinder.Search(TwoBuildings(neighbors, start), {start, a, b}, 0, 2);
    if c >= 2 {
      PathFinder.SearchSaturated(neighbors, occupied, start, 2, c);
    } else {
      PathFinder.SearchGrows(neighbors, occupied, start, c, 2);
    }
  }

  /**
   * No search over the two buildings shows fewer than ten hexes and then
   * finds nothing left to show: it shows at least the start's six
   * neighbours, and all twelve once both buildings are queued.
   */
  lemma TwoBuildingsShowTwelve(neighbors: seq<Point>, start: Point, c: nat)
    requires |neighbors| == 6 && neighbors[0] != neighbors[1]
    requires neighbors[0].Add(start) != start && neighbors[1].Add(start) != start
    ensures PathFinder.Directions(PathFinder.SearchAfter(neighbors, TwoBuilt(neighbors, start), start, c).queue)
    ensures c < 10 ==> |PathFinder.AllCandidates(neighbors, PathFinder.SearchAfter(neighbors, TwoBuilt(neighbors, start), start, c).queue)| != c
  {
    PathFinder.SearchDirections(neighbors, TwoBuilt(neighbors, start), start, c);
    var queue := PathFinder.SearchAfter(neighbors, TwoBuilt(neighbors, start), start, c).queue;
    PathFinder.AllCandidatesPrefix(neighbors, queue, 1);
    PathFinder.AllCandidatesStep(neighbors, queue, 0);
    assert |PathFinder.Candidates(neighbors, queue[0])| == 6 by {
      assert PathFinder.FromMap(6) == [0, 1, 2, 3, 4, 5];
    }
    if c >= 2 {
      TwoBuildingsSearch(neighbors, start, c);
      CornerShownTwice(neighbors, start);
    }
  }

  /**
   * A predicate that declines the first nine hexes shown and accepts the
   * tenth stops a search showing them after exactly ten calls, and no
   * search that runs to its end shows ten of them.
   */
  lemma AcceptsTenth(stop: seq<Point> -> bool, shown: seq<Point>, calls: seq<Point>)
    requires |shown| >= 10 && calls <= shown
    requires PathFinder.Declined(stop, shown[..9]) && stop(shown[..10])
    ensures calls != [] && stop(calls) && PathFinder.Declined(stop, calls[..|calls| - 1]) ==> |calls| == 10
    ensures PathFinder.Declined(stop, calls) ==> |calls| < 10
  {
    if 1 <= |calls| <= 9 {
      assert shown[..9][..|calls|] == calls;
      assert PathFinder.StopsAt(stop, shown[..9], |calls|) == stop(calls);
    }
    if |calls| >= 11 {
      assert calls[..|calls| - 1][..10] == shown[..10];
      assert PathFinder.StopsAt(stop, calls[..|calls| - 1], 10) == stop(shown[..10]);
    }
    if |calls| >= 10 {
      assert calls[..10] == shown[..10];
      assert PathFinder.StopsAt(stop, calls, 10) == stop(shown[..10]);
    }
  }

  /**
   * The search from `start` with buildings on its neighbours in directions
   * 0 and 1 and nowhere else, for a table of neighbours none of which is
   * zero or the sum of the first two, as on the hex grid. One free gostek
   * stands on the corner, another on a hex `far` the search never shows
   * first, and n = 2: this is gostekUseNClosestAsWritten(start, 2) with
   * those gosteks free. Whatever run of the search satisfies pathFind's
   * contract, it is stopped by the visitor as written at the tenth hex,
   * the corner shown a second time, with its queue the start and the two
   * buildings, one gostek moved and the corrected visitor not ending it.
   */
  lemma DoubleChargeAsWritten(neighbors: seq<Point>, start: Point, far: Point,
                              calls: seq<Point>, stopped: bool, queue: seq<PathFinder.Entry>)
    requires |neighbors| == 6
    requires neighbors[0] != neighbors[1] && neighbors[5] != neighbors[1]
    requires forall k :: 0 <= k < 6 ==> neighbors[k] != neighbors[0].Add(neighbors[1])
    requires neighbors[0].Add(start) != start && neighbors[1].Add(start) != start
    requires far !in PathFinder.AllCandidates(neighbors, TwoBuildings(neighbors, start))
    requires PathFinder.Outcome(neighbors, TwoBuilt(neighbors, start), start,
                                VisitorAsWritten(Table(TwoFree(neighbors, start, far)), 2), calls, stopped, queue)
    ensures Budget(2, TwoFree(neighbors, start, far)) == 2
    ensures |PathFinder.AllCandidates(neighbors, TwoBuildings(neighbors, start))| == 12
    ensures stopped && queue == TwoBuildings(neighbors, start)
    ensures calls == PathFinder.AllCandidates(neighbors, TwoBuildings(neighbors, start))[..10]
    ensures Moved(Table(TwoFree(neighbors, start, far)), calls) == {TwoFree(neighbors, start, far)[0]}
    ensures !Stops(Table(TwoFree(neighbors, start, far)), 2, calls)
  {
    var free := TwoFree(neighbors, start, far);
    var visit := VisitorAsWritten(Table(free), 2);
    var shown := PathFinder.AllCandidates(neighbors, TwoBuildings(neighbors, start));
    DoubleChargeCalls(neighbors, start, far);
    assert shown[..10][..9] == shown[..9];
    assert visit(shown[..10]) == StopsAsWritten(Table(free), 2, shown[..10]);
    StoppedAtTenth(neighbors, start, visit, if stopped then |calls| - 1 else |calls|, calls, stopped, queue);
  }

  /**
   * Any run of the search over the two buildings whose predicate declines
   * the first nine hexes of the two-building queue and accepts the tenth
   * stops there, with the two buildings queued.
   */
  lemma StoppedAtTenth(neighbors: seq<Point>, start: Point, visit: seq<Point> -> bool, c: nat,
                       calls: seq<Point>, stopped: bool, queue: seq<PathFinder.Entry>)
    requires |neighbors| == 6 && neighbors[0] != neighbors[1]
    requires neighbors[0].Add(start) != start && neighbors[1].Add(start) != start
    requires |PathFinder.AllCandidates(neighbors, TwoBuildings(neighbors, start))| == 12
    requires PathFinder.Declined(visit, PathFinder.AllCandidates(neighbors, TwoBuildings(neighbors, start))[..9])
    requires visit(PathFinder.AllCandidates(neighbors, TwoBuildings(neighbors, start))[..10])
    requires c == (if stopped then |calls| - 1 else |calls|)
    requires queue == PathFinder.SearchAfter(neighbors, TwoBuilt(neighbors, start), start, c).queue
    requires PathFinder.Directions(queue) && calls <= PathFinder.AllCandidates(neighbors, queue)
    requires stopped ==> calls != [] && visit(calls) && PathFinder.Declined(visit, calls[..|calls| - 1])
    requires !stopped ==> PathFinder.Declined(visit, calls) && calls == PathFinder.AllCandidates(neighbors, queue)
    ensures stopped && queue == TwoBuildings(neighbors, start)
    ensures calls == PathFinder.AllCandidates(neighbors, TwoBuildings(neighbors, start))[..10]
  {
    var shown := PathFinder.AllCandidates(neighbors, TwoBuildings(neighbors, start));
    ShownWithin(neighbors, start, c, calls, queue);
    AcceptsTenth(visit, shown, calls);
    TwoBuildingsShowTwelve(neighbors, start, |calls|);
    TwoBuildingsSearch(neighbors, start, 9);
  }

  /** What a search over the two buildings shows lies within what the two-building queue shows. */
  lemma ShownWithin(neighbors: seq<Point>, start: Point, c: nat, calls: seq<Point>, queue: seq<PathFinder.Entry>)
    requires |neighbors| == 6 && neighbors[0] != neighbors[1]
    requires neighbors[0].Add(start) != start && neighbors[1].Add(start) != start
    requires queue == PathFinder.SearchAfter(neighbors, TwoBuilt(neighbors, start), start, c).queue
    requires PathFinder.Directions(queue) && calls <= PathFinder.AllCandidates(neighbors, queue)
    ensures calls <= PathFinder.AllCandidates(neighbors, TwoBuildings(neighbors, start))
  {
    var twoBuildings := TwoBuildings(neighbors, start);
    TwoBuildingsSearch(neighbors, start, c);
    PathFinder.AllCandidatesPrefix(neighbors, twoBuildings, |queue|);
    assert twoBuildings[..|queue|] == queue;
    PathFinder.PrefixTrans(calls, PathFinder.AllCandidates(neighbors, queue), PathFinder.AllCandidates(neighbors, twoBuildings));
  }

  /**
   * With those buildings and gosteks, the visitor as written declines the
   * first nine hexes the two-building queue shows, is charged the corner's
   * gostek a second time at the tenth and accepts it with that one gostek
   * moved; the corrected visitor does not accept it.
   */
  lemma DoubleChargeCalls(neighbors: seq<Point>, start: Point, far: Point)
    requires |neighbors| == 6
    requires neighbors[0] != neighbors[1] && neighbors[5] != neighbors[1]
    requires forall k :: 0 <= k < 6 ==> neighbors[k] != neighbors[0].Add(neighbors[1])
    requires far !in PathFinder.AllCandidates(neighbors, TwoBuildings(neighbors, start))
    ensures |PathFinder.AllCandidates(neighbors, TwoBuildings(neighbors, start))| == 12
    ensures var free := TwoFree(neighbors, start, far);
            var calls := PathFinder.AllCandidates(neighbors, TwoBuildings(neighbors, start))[..10];
      && Budget(2, free) == 2
      && PathFinder.Declined(VisitorAsWritten(Table(free), 2), calls[..9])
      && StopsAsWritten(Table(free), 2, calls)
      && Moved(Table(free), calls) == {free[0]}
      && !Stops(Table(free), 2, calls)
  {
    var corner := Corner(neighbors, start);
    var free := [Gostek(0, corner), Gostek(1, far)];
    var shown := PathFinder.AllCandidates(neighbors, TwoBuildings(neighbors, start));
    CornerShownTwice(neighbors, start);
    var calls := shown[..10];
    assert far != corner by {
      assert calls[8] == corner;
    }
    var table := TwoTable(free[0], free[1]);
    FirstEightMiss(neighbors, start, far, shown);
    assert forall k :: 0 <= k < 8 ==> calls[k] == shown[k];
    ShownTwice(table, calls);
    ShownTwiceDeclined(table, calls);
  }

  /** None of the first eight hexes shown is the corner or `far`. */
  lemma FirstEightMiss(neighbors: seq<Point>, start: Point, far: Point, shown: seq<Point>)
    requires |neighbors| == 6
    requires neighbors[0] != neighbors[1] && neighbors[5] != neighbors[1]
    requires forall k :: 0 <= k < 6 ==> neighbors[k] != neighbors[0].Add(neighbors[1])
    requires shown == PathFinder.AllCandidates(neighbors, TwoBuildings(neighbors, start)) && far !in shown
    ensures |shown| == 12
    ensures forall k :: 0 <= k < 8 ==> shown[k] != Corner(neighbors, start) && shown[k] != far
  {
    CornerShownTwice(neighbors, start);
    forall k | 0 <= k < 8
      ensures shown[k] != Corner(neighbors, start)
    {
      if k < 6 {
        assert neighbors[k] != neighbors[0].Add(neighbors[1]);
      }
    }
  }

  /**
   * Eight hexes without a gostek, then the same gostek's hex twice: the
   * visitor as written is charged twice for one gostek.
   */
  lemma ShownTwice(table: map<Point, Gostek>, calls: seq<Point>)
    requires |calls| == 10 && calls[8] in table && calls[9] == calls[8]
    requires forall k :: 0 <= k < 8 ==> calls[k] !in table
    ensures ChargesAsWritten(table, calls[..9]) == 1 && ChargesAsWritten(table, calls) == 2
    ensures Moved(table, calls[..9]) == {table[calls[8]]} && Moved(table, calls) == {table[calls[8]]}
    ensures StopsAsWritten(table, 2, calls) && !Stops(table, 2, calls)
  {
    NoChargesBefore(table, calls, 8);
    assert calls[..9][..8] == calls[..8];
    assert calls[..10][..9] == calls[..9];
    assert calls[..10] == calls;
  }

  /** In the same calls, the visitor as written with a budget of two declines the first nine. */
  lemma ShownTwiceDeclined(table: map<Point, Gostek>, calls: seq<Point>)
    requires |calls| == 10 && calls[8] in table && calls[9] == calls[8]
    requires forall k :: 0 <= k < 8 ==> calls[k] !in table
    ensures PathFinder.Declined(VisitorAsWritten(table, 2), calls[..9])
  {
    ShownTwice(table, calls);
    forall m | 1 <= m <= 9
      ensures !PathFinder.StopsAt(VisitorAsWritten(table, 2), calls[..9], m)
    {
      assert calls[..9][..m] == calls[..m];
      if m <= 8 {
        NoChargesBefore(table, calls, m);
      }
      assert VisitorAsWritten(table, 2)(calls[..m]) == StopsAsWritten(table, 2, calls[..m]);
    }
  }

  /** The table of two free gosteks on different hexes. */
  lemma TwoTable(first: Gostek, second: Gostek) returns (table: map<Point, Gostek>)
    requires first.position != second.position
    ensures table == Table([first, second])
    ensures table == map[first.position := first, second.position := second]
  {
    var none: seq<Gostek> := [];
    assert [first, second][..1] == [first] && [first][..0] == none;
    table := Table([first, second]);
  }

  /** A visitor shown only hexes outside the table charges nothing and moves nobody. */
  lemma {:induction false} NoChargesBefore(table: map<Point, Gostek>, calls: seq<Point>, m: nat)
    requires m <= |calls| && forall k :: 0 <= k < m ==> calls[k] !in table
    ensures ChargesAsWritten(table, calls[..m]) == 0 && Moved(table, calls[..m]) == {}
    decreases m
  {
    if m > 0 {
      NoChargesBefore(table, calls, m - 1);
      assert calls[..m][..m - 1] == calls[..m - 1];
    }
  }
}
