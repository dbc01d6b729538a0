/**
 * The older copy of the point class (src/point.ts): the same immutable point
 * as in src/hex.ts but without the hash. It takes its hex dimensions from
 * the hex module, as the source does.
 */
module LegacyPoint {
  import JsBuiltins
  import Hex

  datatype Point = Point(x: real, y: real) {

    function Add(point: Point): Point {
      Point(x + point.x, y + point.y)
    }

    function AddCoords(dx: real, dy: real): Point {
      Point(x + dx, y + dy)
    }

    function Sub(point: Point): Point {
      Point(x - point.x, y - point.y)
    }

    function ToHex(): Point {
      Point(x / (Hex.HexBaseWidth + Hex.HexWidth) + y / Hex.HexHeight,
            x / (Hex.HexBaseWidth + Hex.HexWidth) - y / Hex.HexHeight)
    }

    function ToCanvas(): Point {
      Point(((x + y) * (Hex.HexBaseWidth + Hex.HexWidth)) / 2.0,
            ((x - y) * Hex.HexHeight) / 2.0)
    }

    function Round(): Point {
      Point(JsBuiltins.Round(x) as real, JsBuiltins.Round(y) as real)
    }

    function Equal(point: Point): bool {
      x == point.x && y == point.y
    }

    function ToArray(): seq<real> {
      [x, y]
    }
  }

  function ToHexPoint(p: Point): Hex.Point {
    Hex.Point(p.x, p.y)
  }

  /** Every operation of the old copy agrees with the one in src/hex.ts. */
  lemma AgreesWithHexPoint(p: Point, q: Point)
    ensures ToHexPoint(p.Add(q)) == ToHexPoint(p).Add(ToHexPoint(q))
    ensures ToHexPoint(p.Sub(q)) == ToHexPoint(p).Sub(ToHexPoint(q))
    ensures ToHexPoint(p.AddCoords(q.x, q.y)) == ToHexPoint(p).AddCoords(q.x, q.y)
    ensures ToHexPoint(p.ToHex()) == ToHexPoint(p).ToHex()
    ensures ToHexPoint(p.ToCanvas()) == ToHexPoint(p).ToCanvas()
    ensures ToHexPoint(p.Round()) == ToHexPoint(p).Round()
    ensures p.Equal(q) == ToHexPoint(p).Equal(ToHexPoint(q))
    ensures p.ToArray() == ToHexPoint(p).ToArray()
  {
  }

  lemma AddSub(p: Point, q: Point)
    ensures p.Add(q).Sub(q) == p
    ensures p.AddCoords(q.x, q.y) == p.Add(q)
  {
  }

  lemma CanvasRoundTrip(p: Point)
    ensures p.ToCanvas().ToHex() == p
  {
    Hex.CanvasRoundTrip(ToHexPoint(p));
    AgreesWithHexPoint(p, p);
    AgreesWithHexPoint(p.ToCanvas(), p);
  }

  /** round fixes points with integer coordinates and is idempotent. */
  lemma RoundFixesIntegers(p: Point)
    ensures JsBuiltins.IsInteger(p.x) && JsBuiltins.IsInteger(p.y) ==> p.Round() == p
    ensures p.Round().Round() == p.Round()
  {
    Hex.RoundLattice(ToHexPoint(p));
    AgreesWithHexPoint(p, p);
    AgreesWithHexPoint(p.Round(), p);
  }

  lemma EqualIsIdentity(p: Point, q: Point)
    ensures p.Equal(q) <==> p == q
  {
  }
}
