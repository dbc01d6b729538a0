/**
 * Axial hex coordinates and the canvas plane (src/hex.ts).
 *
 * One immutable `Point` type serves both hex points and canvas points, as in
 * the game; coordinates are exact reals. A hex point whose coordinates are
 * integers is a lattice point: only those are hashed to the `"x,y"` keys
 * that the game's maps and sets use.
 */
module Hex {
  import opened Wrappers
  import opened JsBuiltins

  const HexWidth: real := 160.0
  const HexHeight: real := HexWidth * 0.75
  const HexBaseWidth: real := HexWidth * 0.5

  datatype Point = Point(x: real, y: real) {

    function Add(point: Point): Point {
      Point(x + point.x, y + point.y)
    }

    function AddCoords(dx: real, dy: real): Point {
      Point(x + dx, y + dy)
    }

    function Sub(point: Point): Point {
      Point(x - point.x, y - point.y)
    }

    /** Canvas point to (fractional) hex point. */
    function ToHex(): Point {
      Point(x / (HexBaseWidth + HexWidth) + y / HexHeight,
            x / (HexBaseWidth + HexWidth) - y / HexHeight)
    }

    /** Hex point to the canvas position of its centre. */
    function ToCanvas(): Point {
      Point(((x + y) * (HexBaseWidth + HexWidth)) / 2.0,
            ((x - y) * HexHeight) / 2.0)
    }

    function Round(): Point {
      Point(JsBuiltins.Round(x) as real, JsBuiltins.Round(y) as real)
    }

    function Equal(point: Point): bool {
      x == point.x && y == point.y
    }

    function ToArray(): seq<real> {
      [x, y]
    }

    predicate IsLattice() {
      IsInteger(x) && IsInteger(y)
    }

    /** String(this.toArray()): the decimal coordinates joined by a comma. */
    function ToHash(): (hash: string)
      requires IsLattice()
    {
      Join([IntToString(x.Floor), IntToString(y.Floor)], ",")
    }
  }

  /** The canonical lattice point with integer coordinates `(x, y)`. */
  function At(x: int, y: int): (p: Point)
    ensures p.IsLattice()
  {
    Point(x as real, y as real)
  }

  /** The messages of the three development assertions in fromHash. */
  const NotTwoNumbers := "The hex hash should consist of two numbers"
  const FirstNotNumber := "The first item in the hash is not a number"
  const SecondNotNumber := "The second item in the hash is not a number"

  function FromHash(hash: string): Result<Point, string> {
    var parts := Split(hash, ',');
    if |parts| != 2 then Failure(NotTwoNumbers)
    else if ParseInt(parts[0]).None? then Failure(FirstNotNumber)
    else if ParseInt(parts[1]).None? then Failure(SecondNotNumber)
    else Success(At(ParseInt(parts[0]).value, ParseInt(parts[1]).value))
  }

  const HexVertices: seq<Point> := [
    Point(-HexBaseWidth / 2.0, -HexHeight / 2.0),
    Point(HexBaseWidth / 2.0, -HexHeight / 2.0),
    Point(HexWidth / 2.0, 0.0),
    Point(HexBaseWidth / 2.0, HexHeight / 2.0),
    Point(-HexBaseWidth / 2.0, HexHeight / 2.0),
    Point(-HexWidth / 2.0, 0.0)
  ]

  const NeighborOffsets: seq<Point> := [
    At(0, -1), At(1, -1), At(-1, 0), At(0, 0), At(1, 0), At(-1, 1), At(0, 1)
  ]

  function Abs(r: real): real {
    if r < 0.0 then -r else r
  }

  /** Whether a canvas point, relative to a hex centre, lies inside that hex. */
  function IsInHex(p: Point): bool {
    var absX := Abs(p.x);
    var absY := Abs(p.y);
    if absY > HexHeight / 2.0 || absX > HexWidth / 2.0 then false
    else if absX <= HexBaseWidth / 2.0 then true
    else (HexWidth / 2.0 - absX) / (HexWidth - HexBaseWidth) >= absY / HexHeight
  }

  // -----------------------------------------------------------------------
  // Properties.

  /** add and sub are componentwise, so adding then subtracting q is the identity. */
  lemma AddSub(p: Point, q: Point)
    ensures p.Add(q).Sub(q) == p
    ensures p.Sub(q).Add(q) == p
    ensures p.AddCoords(q.x, q.y) == p.Add(q)
  {
  }

  /** With a hex width of 160 the canvas map is (120(x+y), 60(x-y)); toHex inverts it exactly. */
  lemma CanvasRoundTrip(p: Point)
    ensures p.ToCanvas() == Point(120.0 * (p.x + p.y), 60.0 * (p.x - p.y))
    ensures p.ToCanvas().ToHex() == p
    ensures p.ToHex().ToCanvas() == p
  {
  }

  /** round fixes lattice points and is idempotent. */
  lemma RoundLattice(p: Point)
    ensures p.Round().IsLattice()
    ensures p.IsLattice() ==> p.Round() == p
    ensures p.Round().Round() == p.Round()
  {
    RoundOfInteger(JsBuiltins.Round(p.x));
    RoundOfInteger(JsBuiltins.Round(p.y));
    if p.IsLattice() {
      RoundOfInteger(p.x.Floor);
      RoundOfInteger(p.y.Floor);
    }
  }

  /** Locating a hex centre on the canvas and rounding back gives the same hex. */
  lemma LatticeCanvasRoundTrip(h: Point)
    requires h.IsLattice()
    ensures h.ToCanvas().ToHex().Round() == h
  {
    CanvasRoundTrip(h);
    RoundLattice(h);
  }

  /** equal holds exactly when the two points are the same; it is reflexive and symmetric. */
  lemma EqualIsIdentity(p: Point, q: Point)
    ensures p.Equal(q) <==> p == q
    ensures p.Equal(p)
    ensures p.Equal(q) == q.Equal(p)
  {
  }

  /** The hash is the decimal x, a comma, then the decimal y. */
  lemma HashShape(x: int, y: int)
    ensures At(x, y).ToHash() == IntToString(x) + "," + IntToString(y)
  {
    JoinTwo(IntToString(x), IntToString(y), ",");
  }

  /** Parsing a hash gives back the point. */
  lemma {:induction false} FromHashToHash(p: Point)
    requires p.IsLattice()
    ensures FromHash(p.ToHash()) == Success(p)
  {
    var xs, ys := IntToString(p.x.Floor), IntToString(p.y.Floor);
    JoinTwo(xs, ys, ",");
    assert p.ToHash() == xs + [','] + ys;
    SplitAtFirst(xs, ',', ys);
    SplitNoSeparator(ys, ',');
    ParseIntToString(p.x.Floor);
    ParseIntToString(p.y.Floor);
  }

  /**
   * fromHash succeeds exactly when splitting on ',' gives two parts that both
   * parse, and otherwise fails with the message of the first of its three
   * assertions that fails; what it returns is a lattice point, whose hash is the input
   * whenever both parts are written canonically.
   */
  lemma {:induction false} FromHashInverse(hash: string)
    ensures FromHash(hash).Success? <==>
      |Split(hash, ',')| == 2 && ParseInt(Split(hash, ',')[0]).Some? && ParseInt(Split(hash, ',')[1]).Some?
    ensures |Split(hash, ',')| != 2 ==> FromHash(hash) == Failure(NotTwoNumbers)
    ensures |Split(hash, ',')| == 2 && ParseInt(Split(hash, ',')[0]).None? ==> FromHash(hash) == Failure(FirstNotNumber)
    ensures |Split(hash, ',')| == 2 && ParseInt(Split(hash, ',')[0]).Some? && ParseInt(Split(hash, ',')[1]).None?
      ==> FromHash(hash) == Failure(SecondNotNumber)
    ensures FromHash(hash).Success? ==> FromHash(hash).value.IsLattice()
    ensures FromHash(hash).Success? && IsCanonicalInt(Split(hash, ',')[0]) && IsCanonicalInt(Split(hash, ',')[1])
      ==> FromHash(hash).value.ToHash() == hash
  {
    var parts := Split(hash, ',');
    if FromHash(hash).Success? && IsCanonicalInt(parts[0]) && IsCanonicalInt(parts[1]) {
      IntToStringParse(parts[0]);
      IntToStringParse(parts[1]);
      JoinSplit(hash, ',');
      assert parts == [parts[0], parts[1]];
      JoinTwo(parts[0], parts[1], ",");
    }
  }

  /** The hash is injective on lattice points, so hash-keyed sets never merge two hexes. */
  lemma HashInjective(p: Point, q: Point)
    requires p.IsLattice() && q.IsLattice()
    ensures p.ToHash() == q.ToHash() <==> p == q
  {
    if p.ToHash() == q.ToHash() {
      FromHashToHash(p);
      FromHashToHash(q);
    }
  }

  lemma IsInHexOutside(p: Point)
    requires Abs(p.y) > 60.0 || Abs(p.x) > 80.0
    ensures !IsInHex(p)
  {
  }

  lemma IsInHexCentralBand(p: Point)
    requires Abs(p.x) <= 40.0 && Abs(p.y) <= 60.0
    ensures IsInHex(p)
  {
  }

  /** isInHex looks only at |x| and |y|: the hexagon is symmetric in both axes. */
  lemma IsInHexSymmetric(p: Point)
    ensures IsInHex(Point(-p.x, p.y)) == IsInHex(p)
    ensures IsInHex(Point(p.x, -p.y)) == IsInHex(p)
  {
  }

  /** The six drawing vertices lie on the hexagon that isInHex describes. */
  lemma VerticesInHex()
    ensures |HexVertices| == 6
    ensures forall i :: 0 <= i < 6 ==> IsInHex(HexVertices[i])
  {
  }

  /** The canvas offsets of the centres of the six hexes that share an edge with a hex. */
  const EdgeNeighborCentres: set<Point> := {Point(0.0, 120.0), Point(0.0, -120.0), Point(120.0, 60.0),
    Point(120.0, -60.0), Point(-120.0, 60.0), Point(-120.0, -60.0)}

  /**
   * neighborOffsets holds seven distinct lattice offsets: (0,0) at index 3
   * and, around it, the six hexes whose centres are one edge away on the
   * canvas; each neighbour's opposite is listed too (index 6 - i).
   */
  lemma NeighborOffsetsShape()
    ensures |NeighborOffsets| == 7 && NeighborOffsets[3] == At(0, 0)
    ensures forall i :: 0 <= i < 7 ==> NeighborOffsets[i].IsLattice()
    ensures forall i, j :: 0 <= i < j < 7 ==> NeighborOffsets[i] != NeighborOffsets[j]
    ensures forall i :: 0 <= i < 7 ==> NeighborOffsets[6 - i] == At(0, 0).Sub(NeighborOffsets[i])
  {
  }

  lemma NeighborOffsetsAreEdgeNeighbors()
    ensures (set i | 0 <= i < 7 && i != 3 :: NeighborOffsets[i].ToCanvas()) == EdgeNeighborCentres
  {
    var s := set i | 0 <= i < 7 && i != 3 :: NeighborOffsets[i].ToCanvas();
    assert NeighborOffsets[0].ToCanvas() == Point(-120.0, 60.0);
    assert NeighborOffsets[1].ToCanvas() == Point(0.0, 120.0);
    assert NeighborOffsets[2].ToCanvas() == Point(-120.0, -60.0);
    assert NeighborOffsets[4].ToCanvas() == Point(120.0, 60.0);
    assert NeighborOffsets[5].ToCanvas() == Point(0.0, -120.0);
    assert NeighborOffsets[6].ToCanvas() == Point(120.0, -60.0);
    assert s <= EdgeNeighborCentres;
    assert EdgeNeighborCentres <= s;
  }
}
