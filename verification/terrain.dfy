/**
 * Terrain generation (src/terrain.ts): a map from hexes to terrain kinds,
 * grown over the hexes within distance 28 of the origin.
 *
 * The map and the set of hexes where special regions may not start are
 * keyed in the game by the `"x,y"` hash of a hex; the hash is injective on
 * lattice points (Hex.HashInjective), so here they are keyed by the point.
 * Math.random is an oracle: draw number n of the run is `random(n)`, a
 * number in [0, 1). The table of the six neighbouring offsets, which
 * terrain.ts imports as `neighborHexes`, is a parameter.
 */
module Terrain {
  import opened JsBuiltins
  import opened Hex

  datatype TerrainId = Meadow | Forest | Mountains | Desert

  const Size: int := 28
  const MeadowThreshold: real := 0.4
  const ForestThreshold: real := 0.85
  const MountainsThreshold: real := 0.95

  /** The range [lower, upper] from which a special region's length is drawn. */
  datatype Range = Range(lower: real, upper: real)

  const DesertRange: Range := Range(1.0, 2.0)
  const MountainRange: Range := Range(3.0, 5.0)

  /** Math.random, draw by draw. */
  type Oracle = nat -> real

  ghost predicate IsRandom(random: Oracle) {
    forall n :: 0.0 <= random(n) < 1.0
  }

  /** Six offsets to neighbouring lattice points. */
  predicate IsNeighborTable(neighbors: seq<Point>) {
    |neighbors| == 6 && forall i :: 0 <= i < 6 ==> neighbors[i].IsLattice()
  }

  /** (x ** 2 + y ** 2) ** 0.5 < size, in integers: x² + y² < 28². */
  predicate InDisk(x: int, y: int) {
    x * x + y * y < Size * Size
  }

  /** size - 1.5 < distance < size, in integers: (2 · 28 - 3)² < 4 (x² + y²) and x² + y² < 28². */
  predicate InRing(x: int, y: int) {
    InDisk(x, y) && (2 * Size - 3) * (2 * Size - 3) < 4 * (x * x + y * y)
  }

  function Ceil(r: real): int {
    -((-r).Floor)
  }

  /** How many more tiles a walk with `left` to go may place: ⌈left⌉, or 0 once left <= 0. */
  function Budget(left: real): nat {
    if left <= 0.0 then 0 else Ceil(left)
  }

  lemma BudgetStep(left: real)
    requires left > 0.0
    ensures Budget(left - 1.0) + 1 == Budget(left)
  {
  }

  /** Math.floor(Math.random() * neighborHexes.length) for the six neighbours. */
  function Pick(r: real): (k: int)
    requires 0.0 <= r < 1.0
    ensures 0 <= k < 6
  {
    (r * 6.0).Floor
  }

  /** rangeLower + Math.random() * (rangeUpper - rangeLower). */
  function Length(range: Range, r: real): real {
    range.lower + r * (range.upper - range.lower)
  }

  /**
   * The hexes a call of addSpecial paints, in order, given the forbidden
   * set as it is when the call starts (the recursion adds to it only after
   * the inner call returns) and the number of draws made so far. Each step
   * checks the forbidden set unless told to ignore it, stops once `left`
   * is used up, and moves to a neighbour picked by the next draw.
   */
  function Walk(random: Oracle, neighbors: seq<Point>, forbidden: set<Point>, ignore: bool,
                hex: Point, left: real, draw: nat): seq<Point>
    requires IsRandom(random) && IsNeighborTable(neighbors)
    decreases Budget(left)
  {
    if (!ignore && hex in forbidden) || left <= 0.0 then []
    else [hex] + Walk(random, neighbors, forbidden, ignore, hex.Add(neighbors[Pick(random(draw))]), left - 1.0, draw + 1)
  }

  /** The map after each hex of the walk, in order, is set to `terrain`. */
  function Paint(m: map<Point, TerrainId>, walk: seq<Point>, terrain: TerrainId): map<Point, TerrainId>
    decreases |walk|
  {
    if walk == [] then m else Paint(m[walk[0] := terrain], walk[1..], terrain)
  }

  /** A painted map holds the old keys and the walk's hexes; a hex of the walk has the new terrain, any other its old one. */
  lemma {:induction false} PaintMeaning(m: map<Point, TerrainId>, walk: seq<Point>, terrain: TerrainId)
    ensures forall p :: p in Paint(m, walk, terrain) <==> p in m || p in walk
    ensures forall p | p in Paint(m, walk, terrain) :: Paint(m, walk, terrain)[p] == if p in walk then terrain else m[p]
    decreases |walk|
  {
    if walk != [] {
      PaintMeaning(m[walk[0] := terrain], walk[1..], terrain);
      forall p
        ensures p in walk <==> p == walk[0] || p in walk[1..]
      {
        assert walk == [walk[0]] + walk[1..];
      }
    }
  }

  /** The hexes at the given offsets from `hex`. */
  function NeighborsOf(hex: Point, offsets: seq<Point>): set<Point> {
    set n | n in offsets :: hex.Add(n)
  }

  /** Painting a walk of lattice points keeps every key a lattice point, drops no key and adds the walk's start. */
  lemma PaintedWalk(m: map<Point, TerrainId>, walk: seq<Point>, terrain: TerrainId)
    requires forall p | p in m :: p.IsLattice()
    requires forall i :: 0 <= i < |walk| ==> walk[i].IsLattice()
    ensures forall p | p in Paint(m, walk, terrain) :: p.IsLattice()
    ensures m.Keys <= Paint(m, walk, terrain).Keys
    ensures walk != [] ==> walk[0] in Paint(m, walk, terrain)
    ensures (forall p | p in m :: m[p] == terrain) ==> forall p | p in Paint(m, walk, terrain) :: Paint(m, walk, terrain)[p] == terrain
  {
    PaintMeaning(m, walk, terrain);
  }

  /** The neighbours of the hexes of the walk. */
  function Around(neighbors: seq<Point>, walk: seq<Point>): set<Point>
    decreases |walk|
  {
    if walk == [] then {} else NeighborsOf(walk[0], neighbors) + Around(neighbors, walk[1..])
  }

  /** Around holds exactly every neighbour of every hex of the walk. */
  lemma {:induction false} AroundMeaning(neighbors: seq<Point>, walk: seq<Point>)
    ensures forall p :: p in Around(neighbors, walk) <==> exists q, n :: q in walk && n in neighbors && p == q.Add(n)
    decreases |walk|
  {
    if walk != [] {
      AroundMeaning(neighbors, walk[1..]);
      assert walk == [walk[0]] + walk[1..];
      forall p | exists q, n :: q in walk && n in neighbors && p == q.Add(n)
        ensures p in Around(neighbors, walk)
      {
        var q, n :| q in walk && n in neighbors && p == q.Add(n);
        if q != walk[0] {
          assert q in walk[1..];
        }
      }
      forall p | p in Around(neighbors, walk)
        ensures exists q, n :: q in walk && n in neighbors && p == q.Add(n)
      {
        if p in NeighborsOf(walk[0], neighbors) {
          var n :| n in neighbors && p == walk[0].Add(n);
          assert walk[0] in walk;
        } else {
          assert p in Around(neighbors, walk[1..]);
          var q, n :| q in walk[1..] && n in neighbors && p == q.Add(n);
          assert q in walk;
        }
      }
    }
  }

  lemma NeighborsOfSnoc(hex: Point, offsets: seq<Point>, i: nat)
    requires i < |offsets|
    ensures NeighborsOf(hex, offsets[..i + 1]) == NeighborsOf(hex, offsets[..i]) + {hex.Add(offsets[i])}
  {
    assert offsets[..i + 1] == offsets[..i] + [offsets[i]];
  }

  /**
   * A walk does nothing from a forbidden hex (unless the forbidden test is ignored)
   * or with nothing left; otherwise it starts at the hex, places at most
   * ⌈left⌉ tiles (exactly that many when the forbidden test is ignored), each a
   * neighbour of the one before, none of them forbidden when the forbidden test
   * applies.
   */
  lemma {:induction false} WalkMeaning(random: Oracle, neighbors: seq<Point>, forbidden: set<Point>, ignore: bool,
                                       hex: Point, left: real, draw: nat)
    requires IsRandom(random) && IsNeighborTable(neighbors)
    ensures var walk := Walk(random, neighbors, forbidden, ignore, hex, left, draw);
      && ((!ignore && hex in forbidden) || left <= 0.0 <==> walk == [])
      && (walk != [] ==> walk[0] == hex)
      && |walk| <= Budget(left)
      && (ignore ==> |walk| == Budget(left))
      && (forall i :: 0 <= i < |walk| - 1 ==> walk[i + 1].Sub(walk[i]) in neighbors)
      && (!ignore ==> forall i :: 0 <= i < |walk| ==> walk[i] !in forbidden)
      && (hex.IsLattice() ==> forall i :: 0 <= i < |walk| ==> walk[i].IsLattice())
    decreases Budget(left)
  {
    var walk := Walk(random, neighbors, forbidden, ignore, hex, left, draw);
    if !((!ignore && hex in forbidden) || left <= 0.0) {
      var k := Pick(random(draw));
      var next := hex.Add(neighbors[k]);
      WalkMeaning(random, neighbors, forbidden, ignore, next, left - 1.0, draw + 1);
      var rest := Walk(random, neighbors, forbidden, ignore, next, left - 1.0, draw + 1);
      assert walk == [hex] + rest;
      assert Budget(left) == Budget(left - 1.0) + 1;
      if rest != [] {
        assert walk[1].Sub(walk[0]) == neighbors[k];
      }
      forall i | 1 <= i < |walk| - 1
        ensures walk[i + 1].Sub(walk[i]) in neighbors
      {
        assert walk[i] == rest[i - 1] && walk[i + 1] == rest[i];
      }
      if hex.IsLattice() {
        LatticeAdd(hex, neighbors[k]);
      }
    }
  }

  lemma LatticeAdd(p: Point, q: Point)
    requires p.IsLattice() && q.IsLattice()
    ensures p.Add(q).IsLattice()
  {
    var sx, sy := p.x.Floor + q.x.Floor, p.y.Floor + q.y.Floor;
    assert p.Add(q) == Point(sx as real, sy as real);
    assert (sx as real).Floor == sx && (sy as real).Floor == sy;
  }

  /**
   * A desert region placed with its check ignored covers one or two hexes;
   * a mountain or desert region started where it is allowed covers between
   * 3 and 5, or between 1 and 2, hexes.
   */
  lemma SpecialSizes(r: real)
    requires 0.0 <= r < 1.0
    ensures 1 <= Budget(Length(DesertRange, r)) <= 2
    ensures 3 <= Budget(Length(MountainRange, r)) <= 5
  {
  }

  /** Forbidding the neighbours of the first hex after those of the rest of the walk forbids those of the whole walk. */
  lemma ForbidCons(forbidden: set<Point>, neighbors: seq<Point>, hex: Point, rest: seq<Point>)
    ensures forbidden + Around(neighbors, rest) + NeighborsOf(hex, neighbors) == forbidden + Around(neighbors, [hex] + rest)
  {
    assert ([hex] + rest)[1..] == rest;
  }

  lemma PaintCons(m: map<Point, TerrainId>, hex: Point, rest: seq<Point>, terrain: TerrainId)
    ensures Paint(m[hex := terrain], rest, terrain) == Paint(m, [hex] + rest, terrain)
  {
    assert ([hex] + rest)[1..] == rest;
  }

  /**
   * A hex the first pass may paint: a hex of the ring, or one step from one
   * along the neighbour table.
   */
  ghost predicate NearRing(neighbors: seq<Point>, p: Point) {
    exists x, y :: InRing(x, y) && (p == At(x, y) || p in NeighborsOf(At(x, y), neighbors))
  }

  /**
   * A mountain or desert region started in the second pass: its walk is
   * empty exactly when the hex is forbidden; otherwise it starts at the hex
   * with 3 to 5, or 1 to 2, tiles, none of them forbidden.
   */
  lemma RegionWalk(random: Oracle, neighbors: seq<Point>, forbidden: set<Point>,
                   hex: Point, range: Range, draw: nat)
    requires IsRandom(random) && IsNeighborTable(neighbors)
    requires range == MountainRange || range == DesertRange
    ensures var walk := Walk(random, neighbors, forbidden, false, hex, Length(range, random(draw)), draw + 1);
      && (walk == [] <==> hex in forbidden)
      && (walk != [] ==> walk[0] == hex)
      && |walk| <= (if range == MountainRange then 5 else 2)
      && forall i :: 0 <= i < |walk| ==> walk[i] !in forbidden
  {
    SpecialSizes(random(draw));
    WalkMeaning(random, neighbors, forbidden, false, hex, Length(range, random(draw)), draw + 1);
  }

  /** A first-pass walk of at most two tiles paints only its hex and one neighbour of it. */
  lemma ShortWalk(neighbors: seq<Point>, walk: seq<Point>, hex: Point)
    requires |walk| <= 2 && (walk != [] ==> walk[0] == hex)
    requires forall i :: 0 <= i < |walk| - 1 ==> walk[i + 1].Sub(walk[i]) in neighbors
    ensures forall p | p in walk :: p == hex || p in NeighborsOf(hex, neighbors)
  {
    if |walk| == 2 {
      var n := walk[1].Sub(walk[0]);
      assert walk[1] == hex.Add(n);
    }
  }

  /** The state of one run of terrainInit: the two collections its closure updates and the draws used. */
  class Generator {
    var hashToTerrain: map<Point, TerrainId>
    var specialForbidden: set<Point>
    var draws: nat
    const random: Oracle
    const neighbors: seq<Point>

    /** The forbidden set starts as the neighbours of the origin. */
    constructor(random: Oracle, neighbors: seq<Point>)
      ensures hashToTerrain == map[] && draws == 0
      ensures specialForbidden == NeighborsOf(At(0, 0), neighbors)
      ensures this.random == random && this.neighbors == neighbors
    {
      hashToTerrain := map[];
      specialForbidden := NeighborsOf(At(0, 0), neighbors);
      draws := 0;
      this.random := random;
      this.neighbors := neighbors;
    }

    method Random() returns (r: real)
      modifies this`draws
      ensures r == random(old(draws)) && draws == old(draws) + 1
      ensures hashToTerrain == old(hashToTerrain) && specialForbidden == old(specialForbidden)
    {
      r := random(draws);
      draws := draws + 1;
    }

    /**
     * addSpecial with `left` given: paints the walk, then forbids every
     * neighbour of every painted hex.
     */
    method AddSpecial(terrain: TerrainId, hex: Point, ignore: bool, left: real)
      requires IsRandom(random) && IsNeighborTable(neighbors)
      modifies this
      ensures var walk := Walk(random, neighbors, old(specialForbidden), ignore, hex, left, old(draws));
        && hashToTerrain == Paint(old(hashToTerrain), walk, terrain)
        && specialForbidden == old(specialForbidden) + Around(neighbors, walk)
        && draws == old(draws) + |walk|
      decreases Budget(left)
    {
      if !ignore && hex in specialForbidden {
        return;
      }
      if left <= 0.0 {
        return;
      }
      ghost var forbidden, painted, draw := specialForbidden, hashToTerrain, draws;
      hashToTerrain := hashToTerrain[hex := terrain];
      var r := Random();
      var nextHex := hex.Add(neighbors[Pick(r)]);
      BudgetStep(left);
      AddSpecial(terrain, nextHex, ignore, left - 1.0);
      ghost var rest := Walk(random, neighbors, forbidden, ignore, nextHex, left - 1.0, draw + 1);
      assert Walk(random, neighbors, forbidden, ignore, hex, left, draw) == [hex] + rest;
      PaintCons(painted, hex, rest, terrain);
      ForbidAround(hex);
      ForbidCons(forbidden, neighbors, hex, rest);
    }

    /** The loop at the end of addSpecial: every neighbour of the hex becomes forbidden. */
    method ForbidAround(hex: Point)
      modifies this`specialForbidden
      ensures specialForbidden == old(specialForbidden) + NeighborsOf(hex, neighbors)
      ensures hashToTerrain == old(hashToTerrain) && draws == old(draws)
    {
      for i := 0 to |neighbors|
        invariant specialForbidden == old(specialForbidden) + NeighborsOf(hex, neighbors[..i])
        invariant hashToTerrain == old(hashToTerrain) && draws == old(draws)
      {
        NeighborsOfSnoc(hex, neighbors, i);
        specialForbidden := specialForbidden + {hex.Add(neighbors[i])};
      }
      assert neighbors[..|neighbors|] == neighbors;
    }

    /** addSpecial with the default `left`, drawn from the range before anything else. */
    method AddSpecialInRange(terrain: TerrainId, hex: Point, range: Range, ignore: bool)
      requires IsRandom(random) && IsNeighborTable(neighbors)
      modifies this
      ensures var walk := Walk(random, neighbors, old(specialForbidden), ignore, hex,
                                Length(range, random(old(draws))), old(draws) + 1);
        && hashToTerrain == Paint(old(hashToTerrain), walk, terrain)
        && specialForbidden == old(specialForbidden) + Around(neighbors, walk)
        && draws == old(draws) + 1 + |walk|
    {
      var r := Random();
      AddSpecial(terrain, hex, ignore, Length(range, r));
    }
  
    /** The first pass: a desert region, check ignored, from every hex of the ring, row by row. */
    method SeedDeserts()
      requires IsRandom(random) && IsNeighborTable(neighbors)
      requires forall p | p in hashToTerrain :: hashToTerrain[p] == Desert && p.IsLattice()
      modifies this
      ensures forall p | p in hashToTerrain :: hashToTerrain[p] == Desert && p.IsLattice()
      ensures forall x, y :: InRing(x, y) ==> At(x, y) in hashToTerrain
      ensures forall p | p in hashToTerrain && p !in old(hashToTerrain) :: NearRing(neighbors, p)
    {
      for y := -Size to Size + 1
        invariant forall p | p in hashToTerrain :: hashToTerrain[p] == Desert && p.IsLattice()
        invariant forall x', y' :: -Size <= y' < y && -Size <= x' <= Size && InRing(x', y') ==> At(x', y') in hashToTerrain
        invariant forall p | p in hashToTerrain && p !in old(hashToTerrain) :: NearRing(neighbors, p)
      {
        for x := -Size to Size + 1
          invariant forall p | p in hashToTerrain :: hashToTerrain[p] == Desert && p.IsLattice()
          invariant forall x', y' :: -Size <= y' < y && -Size <= x' <= Size && InRing(x', y') ==> At(x', y') in hashToTerrain
          invariant forall x' :: -Size <= x' < x && InRing(x', y) ==> At(x', y) in hashToTerrain
          invariant forall p | p in hashToTerrain && p !in old(hashToTerrain) :: NearRing(neighbors, p)
        {
          if InRing(x, y) {
            ghost var before := hashToTerrain;
            SeedDesert(x, y);
            forall p | p in hashToTerrain && p !in before
              ensures NearRing(neighbors, p)
            {
              assert InRing(x, y) && (p == At(x, y) || p in NeighborsOf(At(x, y), neighbors));
            }
          }
        }
      }
      forall x, y | InRing(x, y)
        ensures At(x, y) in hashToTerrain
      {
        DiskBounds(x, y);
      }
    }

    /** One hex of the first pass. */
    method SeedDesert(x: int, y: int)
      requires IsRandom(random) && IsNeighborTable(neighbors)
      requires forall p | p in hashToTerrain :: hashToTerrain[p] == Desert && p.IsLattice()
      modifies this
      ensures var walk := Walk(random, neighbors, old(specialForbidden), true, At(x, y),
                                Length(DesertRange, random(old(draws))), old(draws) + 1);
        && hashToTerrain == Paint(old(hashToTerrain), walk, Desert)
        && specialForbidden == old(specialForbidden) + Around(neighbors, walk)
        && draws == old(draws) + 1 + |walk|
        && 1 <= |walk| <= 2
      ensures forall p | p in hashToTerrain :: hashToTerrain[p] == Desert && p.IsLattice()
      ensures old(hashToTerrain).Keys <= hashToTerrain.Keys
      ensures At(x, y) in hashToTerrain
      ensures forall p | p in hashToTerrain && p !in old(hashToTerrain) :: p == At(x, y) || p in NeighborsOf(At(x, y), neighbors)
    {
      ghost var forbidden, painted, draw := specialForbidden, hashToTerrain, draws;
      AddSpecialInRange(Desert, At(x, y), DesertRange, true);
      ghost var left := Length(DesertRange, random(draw));
      ghost var walk := Walk(random, neighbors, forbidden, true, At(x, y), left, draw + 1);
      SpecialSizes(random(draw));
      WalkMeaning(random, neighbors, forbidden, true, At(x, y), left, draw + 1);
      PaintedWalk(painted, walk, Desert);
      PaintMeaning(painted, walk, Desert);
      ShortWalk(neighbors, walk, At(x, y));
    }

    /** The second pass: every hex of the disk without a terrain gets one, row by row. */
    method Fill()
      requires IsRandom(random) && IsNeighborTable(neighbors)
      requires forall p | p in hashToTerrain :: p.IsLattice()
      modifies this
      ensures forall p | p in hashToTerrain :: p.IsLattice()
      ensures forall x, y :: InDisk(x, y) ==> At(x, y) in hashToTerrain
      ensures old(hashToTerrain).Keys <= hashToTerrain.Keys
    {
      for y := -Size to Size + 1
        invariant forall p | p in hashToTerrain :: p.IsLattice()
        invariant forall x', y' :: -Size <= y' < y && -Size <= x' <= Size && InDisk(x', y') ==> At(x', y') in hashToTerrain
        invariant old(hashToTerrain).Keys <= hashToTerrain.Keys
      {
        for x := -Size to Size + 1
          invariant forall p | p in hashToTerrain :: p.IsLattice()
          invariant forall x', y' :: -Size <= y' < y && -Size <= x' <= Size && InDisk(x', y') ==> At(x', y') in hashToTerrain
          invariant forall x' :: -Size <= x' < x && InDisk(x', y) ==> At(x', y) in hashToTerrain
          invariant old(hashToTerrain).Keys <= hashToTerrain.Keys
        {
          if InDisk(x, y) {
            FillHex(x, y);
          }
        }
      }
      forall x, y | InDisk(x, y)
        ensures At(x, y) in hashToTerrain
      {
        DiskBounds(x, y);
      }
    }

    /** A mountain or desert region from a hex of the second pass, with the forbidden check. */
    method StartRegion(terrain: TerrainId, hex: Point, range: Range)
      requires IsRandom(random) && IsNeighborTable(neighbors)
      requires hex.IsLattice() && forall p | p in hashToTerrain :: p.IsLattice()
      modifies this
      ensures var walk := Walk(random, neighbors, old(specialForbidden), false, hex,
                                Length(range, random(old(draws))), old(draws) + 1);
        && hashToTerrain == Paint(old(hashToTerrain), walk, terrain)
        && specialForbidden == old(specialForbidden) + Around(neighbors, walk)
        && draws == old(draws) + 1 + |walk|
        && (hex in hashToTerrain <==> hex in old(hashToTerrain) || walk != [])
      ensures forall p | p in hashToTerrain :: p.IsLattice()
      ensures old(hashToTerrain).Keys <= hashToTerrain.Keys
    {
      ghost var forbidden, painted, draw := specialForbidden, hashToTerrain, draws;
      AddSpecialInRange(terrain, hex, range, false);
      ghost var left := Length(range, random(draw));
      WalkMeaning(random, neighbors, forbidden, false, hex, left, draw + 1);
      PaintedWalk(painted, Walk(random, neighbors, forbidden, false, hex, left, draw + 1), terrain);
      PaintMeaning(painted, Walk(random, neighbors, forbidden, false, hex, left, draw + 1), terrain);
    }

    /**
     * One hex of the second pass. A hex that has a terrain keeps it and no
     * number is drawn. Otherwise a draw below 0.4 makes it meadow, below
     * 0.85 forest, below 0.95 the start of a mountain region and else of a
     * desert region; a region that cannot start there leaves it meadow.
     */
    method FillHex(x: int, y: int)
      requires IsRandom(random) && IsNeighborTable(neighbors)
      requires forall p | p in hashToTerrain :: p.IsLattice()
      modifies this
      ensures forall p | p in hashToTerrain :: p.IsLattice()
      ensures old(hashToTerrain).Keys <= hashToTerrain.Keys
      ensures At(x, y) in hashToTerrain
      ensures At(x, y) in old(hashToTerrain) ==> hashToTerrain == old(hashToTerrain) && draws == old(draws)
      ensures At(x, y) !in old(hashToTerrain) && random(old(draws)) < ForestThreshold ==>
        && hashToTerrain == old(hashToTerrain)[At(x, y) := if random(old(draws)) < MeadowThreshold then Meadow else Forest]
        && specialForbidden == old(specialForbidden) && draws == old(draws) + 1
      ensures At(x, y) !in old(hashToTerrain) && ForestThreshold <= random(old(draws)) ==>
        var mountains := random(old(draws)) < MountainsThreshold;
        var walk := Walk(random, neighbors, old(specialForbidden), false, At(x, y),
                         Length(if mountains then MountainRange else DesertRange, random(old(draws) + 1)), old(draws) + 2);
        && hashToTerrain == (if walk == [] then old(hashToTerrain)[At(x, y) := Meadow]
                             else Paint(old(hashToTerrain), walk, if mountains then Mountains else Desert))
        && specialForbidden == old(specialForbidden) + Around(neighbors, walk)
        && draws == old(draws) + 2 + |walk|
    {
      var hex := At(x, y);
      if hex !in hashToTerrain {
        var r := Random();
        if r < MeadowThreshold {
          hashToTerrain := hashToTerrain[hex := Meadow];
        } else if r < ForestThreshold {
          hashToTerrain := hashToTerrain[hex := Forest];
        } else if r < MountainsThreshold {
          StartRegion(Mountains, hex, MountainRange);
        } else {
          StartRegion(Desert, hex, DesertRange);
        }
      }
      if hex !in hashToTerrain {
        hashToTerrain := hashToTerrain[hex := Meadow];
      }
    }
  }

  /** A hex of the disk lies strictly within 28 of the origin on both axes. */
  lemma DiskBounds(x: int, y: int)
    requires InDisk(x, y)
    ensures -Size < x < Size && -Size < y < Size
  {
    assert x * x < Size * Size && y * y < Size * Size by {
      assert x * x >= 0 && y * y >= 0;
    }
    SquareBelow(x, Size);
    SquareBelow(y, Size);
  }

  lemma SquareBelow(x: int, n: int)
    requires n >= 0 && x * x < n * n
    ensures -n < x < n
  {
    if x >= n {
      SquareMonotone(x, n);
    } else if x <= -n {
      SquareMonotone(-x, n);
    }
  }

  lemma SquareMonotone(a: int, n: int)
    requires a >= n >= 0
    ensures a * a >= n * n
  {
    assert a * a >= n * a >= n * n;
  }

  /**
   * terrainInit's map: every hex within distance 28 of the origin has a
   * terrain, the origin is meadow, and every key is a lattice point.
   */
  method TerrainInit(random: Oracle, neighbors: seq<Point>) returns (terrain: map<Point, TerrainId>)
    requires IsRandom(random) && IsNeighborTable(neighbors)
    ensures forall x, y :: InDisk(x, y) ==> At(x, y) in terrain
    ensures At(0, 0) in terrain && terrain[At(0, 0)] == Meadow
    ensures forall p | p in terrain :: p.IsLattice()
  {
    var generator := new Generator(random, neighbors);
    generator.SeedDeserts();
    generator.Fill();
    terrain := generator.hashToTerrain[At(0, 0) := Meadow];
  }
}
