/**
 * The sprite-stack build step (rollup-plugins/stripSpriteStack.js): it keeps
 * a SpriteStack model of format 2, drops the properties the game does not
 * read, trims trailing zeros off the palette, and replaces each part's
 * run-length voxel list by the voxels of its bounding box, one UTF-16 code
 * unit per voxel.
 *
 * Voxel values are JavaScript numbers read from arrays, so a read past the
 * end is `undefined`; that is `None` here. The voxel grid is 128 wide and
 * 128 deep: voxel (x, y, z) is entry x + 128 y + 128 * 128 z.
 */
module SpriteStack {
  import opened Wrappers

  const GridSize: int := 128

  /** A UTF-16 code unit, the unit of a JavaScript string. */
  newtype CodeUnit = u: int | 0 <= u < 0x1_0000

  // -----------------------------------------------------------------------
  // Run-length unfolding.

  /** `k` copies of `v`. */
  function Repeat<T>(v: T, k: nat): (r: seq<T>)
    ensures |r| == k && forall i :: 0 <= i < k ==> r[i] == v
  {
    seq(k, _ => v)
  }

  /** data[index] with JavaScript's undefined past the end. */
  function At(data: seq<int>, index: int): Option<int> {
    if 0 <= index < |data| then Some(data[index]) else None
  }

  /**
   * unfoldArray: a negative entry -k is followed by the value to repeat k
   * times; any other entry is copied as it is. A trailing -k repeats
   * undefined.
   */
  function Unfold(data: seq<int>): seq<Option<int>>
    decreases |data|
  {
    if data == [] then []
    else if data[0] < 0 then Repeat(At(data, 1), -data[0]) + Unfold(if |data| < 2 then [] else data[2..])
    else [Some(data[0])] + Unfold(data[1..])
  }

  /** A run-length token as the voxel editor writes it. */
  datatype Token = Literal(value: nat) | Run(count: nat, repeated: int)

  /** The numbers for tokens: a literal as itself, a run of k as -k then the value. */
  function Encode(tokens: seq<Token>): seq<int>
    decreases |tokens|
  {
    if tokens == [] then []
    else
      match tokens[0]
      case Literal(v) => [v] + Encode(tokens[1..])
      case Run(k, v) => [-(k as int), v] + Encode(tokens[1..])
  }

  /** What the tokens stand for. */
  function Expand(tokens: seq<Token>): seq<int>
    decreases |tokens|
  {
    if tokens == [] then []
    else
      match tokens[0]
      case Literal(v) => [v] + Expand(tokens[1..])
      case Run(k, v) => Repeat(v, k) + Expand(tokens[1..])
  }

  /** Number of voxels the tokens stand for: each run's count plus one per literal. */
  function Voxels(tokens: seq<Token>): nat
    decreases |tokens|
  {
    if tokens == [] then 0
    else (match tokens[0] case Literal(_) => 1 case Run(k, _) => k) + Voxels(tokens[1..])
  }

  function Defined(values: seq<int>): (r: seq<Option<int>>)
    ensures |r| == |values| && forall i :: 0 <= i < |values| ==> r[i] == Some(values[i])
  {
    seq(|values|, i requires 0 <= i < |values| => Some(values[i]))
  }

  /**
   * Unfolding decodes the encoding: every voxel is defined, runs expand to
   * their count, literals are kept, the order is kept, and the length is
   * the sum of the run counts plus the number of literals.
   */
  lemma {:induction false} UnfoldEncode(tokens: seq<Token>)
    requires forall i :: 0 <= i < |tokens| ==> tokens[i].Run? ==> tokens[i].count >= 1
    ensures Unfold(Encode(tokens)) == Defined(Expand(tokens))
    ensures |Unfold(Encode(tokens))| == Voxels(tokens)
    decreases |tokens|
  {
    if tokens != [] {
      var rest := tokens[1..];
      assert forall i :: 0 <= i < |rest| ==> rest[i] == tokens[i + 1];
      UnfoldEncode(rest);
      var tail := Encode(rest);
      match tokens[0]
      case Literal(v) =>
        assert Encode(tokens) == [v] + tail;
        assert Encode(tokens)[1..] == tail;
        assert Defined(Expand(tokens)) == [Some(v)] + Defined(Expand(rest));
      case Run(k, v) =>
        assert Encode(tokens) == [-(k as int), v] + tail;
        assert Encode(tokens)[2..] == tail;
        assert Defined(Expand(tokens)) == Repeat(Some(v), k) + Defined(Expand(rest));
    }
  }

  /** A list with no negative entry unfolds to itself. */
  lemma {:induction false} UnfoldLiterals(data: seq<int>)
    requires forall i :: 0 <= i < |data| ==> data[i] >= 0
    ensures Unfold(data) == Defined(data)
    decreases |data|
  {
    if data != [] {
      assert forall i :: 0 <= i < |data[1..]| ==> data[1..][i] == data[i + 1];
      UnfoldLiterals(data[1..]);
      assert Defined(data) == [Some(data[0])] + Defined(data[1..]);
    }
  }

  /** The rest of the list from `index`, or nothing once the index has run past the end. */
  function From(data: seq<int>, index: nat): seq<int> {
    if index <= |data| then data[index..] else []
  }

  /** One step of the unfolding loop from `index`. */
  lemma UnfoldStep(data: seq<int>, index: nat)
    requires index < |data|
    ensures data[index] < 0 ==>
      Unfold(From(data, index)) == Repeat(At(data, index + 1), -data[index]) + Unfold(From(data, index + 2))
    ensures data[index] >= 0 ==>
      Unfold(From(data, index)) == [Some(data[index])] + Unfold(From(data, index + 1))
  {
    var rest := data[index..];
    assert At(rest, 1) == At(data, index + 1);
    assert From(data, index + 2) == (if |rest| < 2 then [] else rest[2..]);
    assert From(data, index + 1) == rest[1..];
  }

  method UnfoldArray(data: seq<int>) returns (unfolded: seq<Option<int>>)
    ensures unfolded == Unfold(data)
  {
    unfolded := [];
    var index := 0;
    while index < |data|
      invariant 0 <= index <= |data| + 1
      invariant unfolded + Unfold(From(data, index)) == Unfold(data)
      decreases |data| + 1 - index
    {
      ghost var before := unfolded;
      if data[index] < 0 {
        unfolded := PushRun(unfolded, At(data, index + 1), data[index]);
        UnfoldRunStep(data, index, before, unfolded);
        index := index + 1;
      } else {
        unfolded := unfolded + [Some(data[index])];
        UnfoldLiteralStep(data, index, before, unfolded);
      }
      index := index + 1;
    }
    assert From(data, index) == [];
  }

  /** A negative entry and the value after it, unfolded, leave the rest from two entries on. */
  lemma UnfoldRunStep(data: seq<int>, index: nat, before: seq<Option<int>>, after: seq<Option<int>>)
    requires index < |data| && data[index] < 0
    requires before + Unfold(From(data, index)) == Unfold(data)
    requires after == before + Repeat(At(data, index + 1), -data[index])
    ensures after + Unfold(From(data, index + 2)) == Unfold(data)
  {
    UnfoldStep(data, index);
    AppendAssoc(before, Repeat(At(data, index + 1), -data[index]), Unfold(From(data, index + 2)));
  }

  /** Any other entry, copied, leaves the rest from the next entry on. */
  lemma UnfoldLiteralStep(data: seq<int>, index: nat, before: seq<Option<int>>, after: seq<Option<int>>)
    requires index < |data| && data[index] >= 0
    requires before + Unfold(From(data, index)) == Unfold(data)
    requires after == before + [Some(data[index])]
    ensures after + Unfold(From(data, index + 1)) == Unfold(data)
  {
    UnfoldStep(data, index);
    AppendAssoc(before, [Some(data[index])], Unfold(From(data, index + 1)));
  }

  lemma AppendAssoc<T>(a: seq<T>, b: seq<T>, c: seq<T>)
    ensures (a + b) + c == a + (b + c)
  {
  }

  /** The inner loop of unfoldArray: counting a negative entry up to zero, push the value once per step. */
  method PushRun(start: seq<Option<int>>, value: Option<int>, negative: int) returns (unfolded: seq<Option<int>>)
    requires negative < 0
    ensures unfolded == start + Repeat(value, -negative)
  {
    unfolded := start;
    var count := negative;
    while count < 0
      invariant negative <= count <= 0
      invariant unfolded == start + Repeat(value, count - negative)
    {
      unfolded := unfolded + [value];
      count := count + 1;
    }
  }

  // -----------------------------------------------------------------------
  // Palette trimming.

  /** The palette without its trailing zeros. */
  function TrimZeros(palette: seq<int>): seq<int>
    decreases |palette|
  {
    if palette != [] && palette[|palette| - 1] == 0 then TrimZeros(palette[..|palette| - 1]) else palette
  }

  /**
   * Trimming removes trailing zeros only: the result is a prefix of the
   * palette, everything cut off is zero, and what is left is empty or ends
   * with a non-zero entry; trimming again changes nothing.
   */
  lemma {:induction false} TrimZerosMeaning(palette: seq<int>)
    ensures |TrimZeros(palette)| <= |palette|
    ensures TrimZeros(palette) == palette[..|TrimZeros(palette)|]
    ensures forall i :: |TrimZeros(palette)| <= i < |palette| ==> palette[i] == 0
    ensures TrimZeros(palette) == [] || TrimZeros(palette)[|TrimZeros(palette)| - 1] != 0
    ensures TrimZeros(TrimZeros(palette)) == TrimZeros(palette)
    decreases |palette|
  {
    if palette != [] && palette[|palette| - 1] == 0 {
      var init := palette[..|palette| - 1];
      TrimZerosMeaning(init);
      assert init[..|TrimZeros(init)|] == palette[..|TrimZeros(init)|];
    }
  }

  // -----------------------------------------------------------------------
  // Cropping a part to its bounding box.

  /** getColorIndex: voxel (x, y, z) of the 128 x 128 grid, undefined outside the list. */
  function ColorIndex(data: seq<Option<int>>, x: int, y: int, z: int): Option<int> {
    var index := x + y * GridSize + z * GridSize * GridSize;
    if 0 <= index < |data| then data[index] else None
  }

  /** The voxels x0 <= x < xEnd of row (y, z), x increasing. */
  function Row(data: seq<Option<int>>, y: int, z: int, x0: int, xEnd: int): seq<Option<int>>
    decreases xEnd - x0
  {
    if xEnd <= x0 then [] else Row(data, y, z, x0, xEnd - 1) + [ColorIndex(data, xEnd - 1, y, z)]
  }

  /** The rows y0 <= y < yEnd of layer z, each from x0 to x1 inclusive. */
  function Slab(data: seq<Option<int>>, z: int, y0: int, yEnd: int, x0: int, x1: int): seq<Option<int>>
    decreases yEnd - y0
  {
    if yEnd <= y0 then [] else Slab(data, z, y0, yEnd - 1, x0, x1) + Row(data, yEnd - 1, z, x0, x1 + 1)
  }

  /** The layers z0 <= z < zEnd, each from (x0, y0) to (x1, y1) inclusive. */
  function Box(data: seq<Option<int>>, z0: int, zEnd: int, y0: int, y1: int, x0: int, x1: int): seq<Option<int>>
    decreases zEnd - z0
  {
    if zEnd <= z0 then [] else Box(data, z0, zEnd - 1, y0, y1, x0, x1) + Slab(data, zEnd - 1, y0, y1 + 1, x0, x1)
  }

  /** The number of integers from lo to hi inclusive. */
  function Extent(lo: int, hi: int): nat {
    if hi >= lo then hi - lo + 1 else 0
  }

  /** The bounding box [x0, x1, y0, y1, z0, z1] of a part, inclusive on both ends. */
  function Crop(data: seq<Option<int>>, bounds: seq<int>): seq<Option<int>>
    requires |bounds| >= 6
  {
    Box(data, bounds[4], bounds[5] + 1, bounds[2], bounds[3], bounds[0], bounds[1])
  }

  lemma {:induction false} RowAt(data: seq<Option<int>>, y: int, z: int, x0: int, xEnd: int, x: int)
    requires x0 <= x < xEnd
    ensures |Row(data, y, z, x0, xEnd)| == xEnd - x0
    ensures Row(data, y, z, x0, xEnd)[x - x0] == ColorIndex(data, x, y, z)
    decreases xEnd - x0
  {
    if x < xEnd - 1 {
      RowAt(data, y, z, x0, xEnd - 1, x);
    } else if x0 < xEnd - 1 {
      RowAt(data, y, z, x0, xEnd - 1, x0);
    }
  }

  lemma RowLength(data: seq<Option<int>>, y: int, z: int, x0: int, x1: int)
    ensures |Row(data, y, z, x0, x1 + 1)| == Extent(x0, x1)
  {
    if x0 <= x1 {
      RowAt(data, y, z, x0, x1 + 1, x0);
    }
  }

  lemma {:induction false} SlabLength(data: seq<Option<int>>, z: int, y0: int, yEnd: int, x0: int, x1: int)
    ensures |Slab(data, z, y0, yEnd, x0, x1)| == (if yEnd <= y0 then 0 else yEnd - y0) * Extent(x0, x1)
    decreases yEnd - y0
  {
    if yEnd > y0 {
      SlabLength(data, z, y0, yEnd - 1, x0, x1);
      RowLength(data, yEnd - 1, z, x0, x1);
      MulStep(yEnd - y0, Extent(x0, x1));
    }
  }

  /** One more row (or layer) adds its own size. */
  lemma MulStep(n: int, size: int)
    ensures n * size == (n - 1) * size + size
  {
  }

  lemma {:induction false} SlabPrefix(data: seq<Option<int>>, z: int, y0: int, y: int, yEnd: int, x0: int, x1: int)
    requires y <= yEnd
    ensures |Slab(data, z, y0, y, x0, x1)| <= |Slab(data, z, y0, yEnd, x0, x1)|
    ensures Slab(data, z, y0, yEnd, x0, x1)[..|Slab(data, z, y0, y, x0, x1)|] == Slab(data, z, y0, y, x0, x1)
    decreases yEnd - y
  {
    if y < yEnd && y0 < yEnd {
      SlabPrefix(data, z, y0, y, yEnd - 1, x0, x1);
    }
  }

  /** Row y of a layer starts right after the rows before it. */
  lemma {:induction false} SlabAt(data: seq<Option<int>>, z: int, y0: int, yEnd: int, x0: int, x1: int, y: int, x: int,
                                  layer: seq<Option<int>>, k: int)
    requires y0 <= y < yEnd && x0 <= x <= x1
    requires layer == Slab(data, z, y0, yEnd, x0, x1) && k == |Slab(data, z, y0, y, x0, x1)| + (x - x0)
    ensures 0 <= k < |layer| && layer[k] == ColorIndex(data, x, y, z)
  {
    var row := Row(data, y, z, x0, x1 + 1);
    assert Slab(data, z, y0, y + 1, x0, x1) == Slab(data, z, y0, y, x0, x1) + row;
    RowAt(data, y, z, x0, x1 + 1, x);
    SlabPrefix(data, z, y0, y + 1, yEnd, x0, x1);
    PrefixPartAt(layer, Slab(data, z, y0, y, x0, x1), row, x - x0, k);
  }

  /** a * c + d < b * c when a < b and d < c. */
  lemma BelowNextMultiple(a: nat, b: nat, c: nat, d: nat)
    requires a < b && d < c
    ensures a * c + d < b * c
  {
    assert (a + 1) * c <= b * c;
  }

  lemma {:induction false} BoxLength(data: seq<Option<int>>, z0: int, zEnd: int, y0: int, y1: int, x0: int, x1: int)
    ensures |Box(data, z0, zEnd, y0, y1, x0, x1)| ==
      (if zEnd <= z0 then 0 else zEnd - z0) * (Extent(y0, y1) * Extent(x0, x1))
    decreases zEnd - z0
  {
    if zEnd > z0 {
      BoxLength(data, z0, zEnd - 1, y0, y1, x0, x1);
      SlabLength(data, zEnd - 1, y0, y1 + 1, x0, x1);
      MulStep(zEnd - z0, Extent(y0, y1) * Extent(x0, x1));
    }
  }

  lemma {:induction false} BoxPrefix(data: seq<Option<int>>, z0: int, z: int, zEnd: int, y0: int, y1: int, x0: int, x1: int)
    requires z <= zEnd
    ensures |Box(data, z0, z, y0, y1, x0, x1)| <= |Box(data, z0, zEnd, y0, y1, x0, x1)|
    ensures Box(data, z0, zEnd, y0, y1, x0, x1)[..|Box(data, z0, z, y0, y1, x0, x1)|] == Box(data, z0, z, y0, y1, x0, x1)
    decreases zEnd - z
  {
    if z < zEnd && z0 < zEnd {
      BoxPrefix(data, z0, z, zEnd - 1, y0, y1, x0, x1);
    }
  }

  /** Voxel (x, y, z) sits in layer z of the box, after the layers before it. */
  lemma {:induction false} BoxAt(data: seq<Option<int>>, z0: int, zEnd: int, y0: int, y1: int, x0: int, x1: int, z: int, y: int, x: int,
                                 whole: seq<Option<int>>, k: int, i: int)
    requires z0 <= z < zEnd && y0 <= y <= y1 && x0 <= x <= x1
    requires whole == Box(data, z0, zEnd, y0, y1, x0, x1)
    requires k == |Slab(data, z, y0, y, x0, x1)| + (x - x0) && i == |Box(data, z0, z, y0, y1, x0, x1)| + k
    ensures 0 <= i < |whole| && whole[i] == ColorIndex(data, x, y, z)
  {
    var layer := Slab(data, z, y0, y1 + 1, x0, x1);
    SlabAt(data, z, y0, y1 + 1, x0, x1, y, x, layer, k);
    LayerAt(data, z0, zEnd, y0, y1, x0, x1, z, whole, layer, k, i);
  }

  /** Layer z of a box starts right after the layers before it. */
  lemma {:induction false} LayerAt(data: seq<Option<int>>, z0: int, zEnd: int, y0: int, y1: int, x0: int, x1: int, z: int,
                                   whole: seq<Option<int>>, layer: seq<Option<int>>, k: int, i: int)
    requires z0 <= z < zEnd
    requires whole == Box(data, z0, zEnd, y0, y1, x0, x1) && layer == Slab(data, z, y0, y1 + 1, x0, x1)
    requires 0 <= k < |layer| && i == |Box(data, z0, z, y0, y1, x0, x1)| + k
    ensures 0 <= i < |whole| && whole[i] == layer[k]
  {
    BoxStep(data, z0, z, y0, y1, x0, x1);
    BoxPrefix(data, z0, z + 1, zEnd, y0, y1, x0, x1);
    PrefixPartAt(whole, Box(data, z0, z, y0, y1, x0, x1), layer, k, i);
  }

  lemma {:induction false} BoxStep(data: seq<Option<int>>, z0: int, z: int, y0: int, y1: int, x0: int, x1: int)
    requires z0 <= z
    ensures Box(data, z0, z + 1, y0, y1, x0, x1) == Box(data, z0, z, y0, y1, x0, x1) + Slab(data, z, y0, y1 + 1, x0, x1)
  {
  }

  /** Entry k of the second part of a prefix of `whole`. */
  lemma PrefixPartAt<T>(whole: seq<T>, before: seq<T>, layer: seq<T>, k: int, i: int)
    requires |before| + |layer| <= |whole| && whole[..|before| + |layer|] == before + layer
    requires 0 <= k < |layer| && i == |before| + k
    ensures 0 <= i < |whole| && whole[i] == layer[k]
  {
    assert whole[i] == (before + layer)[i];
  }

  lemma IndexSplit(a: int, b: int, width: int, depth: int, c: int)
    ensures (a * depth + b) * width + c == a * (depth * width) + (b * width + c)
  {
  }

  /** Where voxel (dx, dy, dz) of a box width x depth x height lands when x varies fastest, then y, then z. */
  function Offset(width: nat, depth: nat, dx: nat, dy: nat, dz: nat): nat {
    (dz * depth + dy) * width + dx
  }

  /**
   * trimPart's crop holds (x extent)(y extent)(z extent) voxels, x fastest,
   * then y, then z; the voxel at (x, y, z) of the box is entry
   * x + 128 y + 128 * 128 z of the unfolded list.
   */
  lemma CropMeaning(data: seq<Option<int>>, bounds: seq<int>, x: int, y: int, z: int)
    requires |bounds| >= 6
    ensures |Crop(data, bounds)| == Extent(bounds[4], bounds[5]) * (Extent(bounds[2], bounds[3]) * Extent(bounds[0], bounds[1]))
    ensures bounds[0] <= x <= bounds[1] && bounds[2] <= y <= bounds[3] && bounds[4] <= z <= bounds[5] ==>
      var index := Offset(Extent(bounds[0], bounds[1]), Extent(bounds[2], bounds[3]), x - bounds[0], y - bounds[2], z - bounds[4]);
      index < |Crop(data, bounds)| && Crop(data, bounds)[index] == ColorIndex(data, x, y, z)
  {
    var x0, x1, y0, y1, z0, z1 := bounds[0], bounds[1], bounds[2], bounds[3], bounds[4], bounds[5];
    BoxLength(data, z0, z1 + 1, y0, y1, x0, x1);
    if x0 <= x <= x1 && y0 <= y <= y1 && z0 <= z <= z1 {
      CropAt(data, x0, x1, y0, y1, z0, z1, x, y, z);
    }
  }

  /** The offset of (x, y, z) is the length of the layers and rows before it, plus x - x0. */
  lemma CropIndex(data: seq<Option<int>>, x0: int, x1: int, y0: int, y1: int, x: int, y: int, z0: int, z: int)
    requires x0 <= x <= x1 && y0 <= y <= y1 && z0 <= z
    ensures Offset(Extent(x0, x1), Extent(y0, y1), x - x0, y - y0, z - z0)
      == |Box(data, z0, z, y0, y1, x0, x1)| + (|Slab(data, z, y0, y, x0, x1)| + (x - x0))
  {
    BoxLength(data, z0, z, y0, y1, x0, x1);
    SlabLength(data, z, y0, y, x0, x1);
    IndexSplit(z - z0, y - y0, Extent(x0, x1), Extent(y0, y1), x - x0);
  }

  lemma CropAt(data: seq<Option<int>>, x0: int, x1: int, y0: int, y1: int, z0: int, z1: int, x: int, y: int, z: int)
    requires x0 <= x <= x1 && y0 <= y <= y1 && z0 <= z <= z1
    ensures Offset(Extent(x0, x1), Extent(y0, y1), x - x0, y - y0, z - z0) < |Box(data, z0, z1 + 1, y0, y1, x0, x1)|
    ensures Box(data, z0, z1 + 1, y0, y1, x0, x1)[Offset(Extent(x0, x1), Extent(y0, y1), x - x0, y - y0, z - z0)]
      == ColorIndex(data, x, y, z)
  {
    CropIndex(data, x0, x1, y0, y1, x, y, z0, z);
    BoxAt(data, z0, z1 + 1, y0, y1, x0, x1, z, y, x, Box(data, z0, z1 + 1, y0, y1, x0, x1),
          |Slab(data, z, y0, y, x0, x1)| + (x - x0), Offset(Extent(x0, x1), Extent(y0, y1), x - x0, y - y0, z - z0));
  }

  // -----------------------------------------------------------------------
  // Packing voxels into a string and rebasing the bounds.

  /**
   * String.fromCharCode(color + 32): the number is cut to 16 bits
   * (ToUint16, a remainder that is never negative), and undefined + 32 is
   * NaN, which becomes code unit 0.
   */
  function CodeUnitOf(voxel: Option<int>): CodeUnit {
    match voxel
    case None => 0
    case Some(color) => ((color + 32) % 0x1_0000) as CodeUnit
  }

  /** newData.map(color => String.fromCharCode(color + 32)).join(''): one code unit per voxel. */
  function PackVoxels(voxels: seq<Option<int>>): (units: seq<CodeUnit>)
    ensures |units| == |voxels|
  {
    seq(|voxels|, i requires 0 <= i < |voxels| => CodeUnitOf(voxels[i]))
  }

  /** How the game reads a packed part back: each code unit less 32. */
  function Unpack(units: seq<CodeUnit>): (colors: seq<int>)
    ensures |colors| == |units|
  {
    seq(|units|, i requires 0 <= i < |units| => units[i] as int - 32)
  }

  /**
   * Packing is undone by unpacking for every voxel whose colour c has
   * -32 <= c < 65504, and an undefined voxel packs to code unit 0, which
   * reads back as -32, below every such colour that is a palette index.
   */
  lemma PackRoundTrip(voxels: seq<Option<int>>)
    ensures forall i :: 0 <= i < |voxels| && voxels[i].Some? && -32 <= voxels[i].value < 0x1_0000 - 32 ==>
      Unpack(PackVoxels(voxels))[i] == voxels[i].value
    ensures forall i :: 0 <= i < |voxels| && voxels[i].None? ==> Unpack(PackVoxels(voxels))[i] == -32
    ensures (forall i :: 0 <= i < |voxels| ==> voxels[i].Some? && -32 <= voxels[i].value < 0x1_0000 - 32) ==>
      Defined(Unpack(PackVoxels(voxels))) == voxels
  {
    if forall i :: 0 <= i < |voxels| ==> voxels[i].Some? && -32 <= voxels[i].value < 0x1_0000 - 32 {
      assert forall i :: 0 <= i < |voxels| ==> Defined(Unpack(PackVoxels(voxels)))[i] == voxels[i];
    }
  }

  /** The bounds after trimPart: each axis starts at 0 and keeps its length; the rest is kept. */
  function Rebased(bounds: seq<int>): (rebased: seq<int>)
    requires |bounds| >= 6
    ensures |rebased| == |bounds| && rebased[6..] == bounds[6..]
  {
    [0, bounds[1] - bounds[0], 0, bounds[3] - bounds[2], 0, bounds[5] - bounds[4]] + bounds[6..]
  }

  /** Rebasing moves every axis to start at 0 without changing its extent, and is idempotent. */
  lemma RebasedMeaning(bounds: seq<int>)
    requires |bounds| >= 6
    ensures forall k :: 0 <= k < 3 ==> Rebased(bounds)[2 * k] == 0
    ensures forall k :: 0 <= k < 3 ==>
      Extent(Rebased(bounds)[2 * k], Rebased(bounds)[2 * k + 1]) == Extent(bounds[2 * k], bounds[2 * k + 1])
    ensures Rebased(Rebased(bounds)) == Rebased(bounds)
  {
  }

  /** part.size: the x and y extents of the bounds, computed as hi - lo + 1 before rebasing. */
  function SizeOf(bounds: seq<int>): (int, int)
    requires |bounds| >= 4
  {
    (bounds[1] - bounds[0] + 1, bounds[3] - bounds[2] + 1)
  }

  /** What trimPart makes of a run-length voxel list and the bounds. */
  function Trimmed(runs: seq<int>, bounds: seq<int>): seq<CodeUnit>
    requires |bounds| >= 6
  {
    PackVoxels(Crop(Unfold(runs), bounds))
  }

  /**
   * A trimmed part read at (x, y, z) inside its rebased bounds, with x
   * fastest, holds the voxel that was at (x + x0, y + y0, z + z0) of the
   * full grid.
   */
  lemma TrimmedVoxel(runs: seq<int>, bounds: seq<int>, x: int, y: int, z: int)
    requires |bounds| >= 6
    requires 0 <= x <= Rebased(bounds)[1] && 0 <= y <= Rebased(bounds)[3] && 0 <= z <= Rebased(bounds)[5]
    ensures Offset(Extent(0, Rebased(bounds)[1]), Extent(0, Rebased(bounds)[3]), x, y, z) < |Trimmed(runs, bounds)|
    ensures Trimmed(runs, bounds)[Offset(Extent(0, Rebased(bounds)[1]), Extent(0, Rebased(bounds)[3]), x, y, z)]
      == CodeUnitOf(ColorIndex(Unfold(runs), x + bounds[0], y + bounds[2], z + bounds[4]))
  {
    var rebased := Rebased(bounds);
    assert rebased[1] == bounds[1] - bounds[0] && rebased[3] == bounds[3] - bounds[2] && rebased[5] == bounds[5] - bounds[4];
    var width, depth := Extent(bounds[0], bounds[1]), Extent(bounds[2], bounds[3]);
    assert Extent(0, rebased[1]) == width && Extent(0, rebased[3]) == depth;
    var voxels := Unfold(runs);
    CropMeaning(voxels, bounds, x + bounds[0], y + bounds[2], z + bounds[4]);
    var i := Offset(width, depth, x, y, z);
    assert i == Offset(width, depth, x + bounds[0] - bounds[0], y + bounds[2] - bounds[2], z + bounds[4] - bounds[4]);
    assert Crop(voxels, bounds)[i] == ColorIndex(voxels, x + bounds[0], y + bounds[2], z + bounds[4]);
  }

  /** trimPart's innermost loop: pushes the voxels x0 <= x <= x1 of row (y, z). */
  method PushRow(newData: seq<Option<int>>, voxels: seq<Option<int>>, y: int, z: int, x0: int, x1: int)
    returns (pushed: seq<Option<int>>)
    ensures pushed == newData + Row(voxels, y, z, x0, x1 + 1)
  {
    pushed := newData;
    var x := x0;
    while x <= x1
      invariant x0 <= x && (x <= x1 + 1 || x == x0)
      invariant pushed == newData + Row(voxels, y, z, x0, x)
    {
      AppendAssoc(newData, Row(voxels, y, z, x0, x), [ColorIndex(voxels, x, y, z)]);
      pushed := pushed + [ColorIndex(voxels, x, y, z)];
      x := x + 1;
    }
    assert Row(voxels, y, z, x0, x) == Row(voxels, y, z, x0, x1 + 1);
  }

  /** trimPart's middle loop: pushes the rows y0 <= y <= y1 of layer z. */
  method PushSlab(newData: seq<Option<int>>, voxels: seq<Option<int>>, z: int, y0: int, y1: int, x0: int, x1: int)
    returns (pushed: seq<Option<int>>)
    ensures pushed == newData + Slab(voxels, z, y0, y1 + 1, x0, x1)
  {
    pushed := newData;
    var y := y0;
    while y <= y1
      invariant y0 <= y && (y <= y1 + 1 || y == y0)
      invariant pushed == newData + Slab(voxels, z, y0, y, x0, x1)
    {
      AppendAssoc(newData, Slab(voxels, z, y0, y, x0, x1), Row(voxels, y, z, x0, x1 + 1));
      pushed := PushRow(pushed, voxels, y, z, x0, x1);
      y := y + 1;
    }
    assert Slab(voxels, z, y0, y, x0, x1) == Slab(voxels, z, y0, y1 + 1, x0, x1);
  }

  /** trimPart's outer loop: pushes the layers z0 <= z <= z1, giving the crop. */
  method CropLoops(voxels: seq<Option<int>>, x0: int, x1: int, y0: int, y1: int, z0: int, z1: int)
    returns (newData: seq<Option<int>>)
    ensures newData == Box(voxels, z0, z1 + 1, y0, y1, x0, x1)
  {
    newData := [];
    var z := z0;
    while z <= z1
      invariant z0 <= z && (z <= z1 + 1 || z == z0)
      invariant newData == Box(voxels, z0, z, y0, y1, x0, x1)
    {
      newData := PushSlab(newData, voxels, z, y0, y1, x0, x1);
      z := z + 1;
    }
    assert Box(voxels, z0, z, y0, y1, x0, x1) == Box(voxels, z0, z1 + 1, y0, y1, x0, x1);
  }

  // -----------------------------------------------------------------------
  // The parsed model, changed in place.

  /** A part's voxels: the editor's run-length numbers, or the packed string. */
  datatype PartData = Runs(runs: seq<int>) | Chars(units: seq<CodeUnit>)

  /** One part of the model; an absent property is None. */
  class Part {
    var uuid: Option<string>
    var hidden: Option<bool>
    var data: PartData
    const bounds: array<int>
    var size: Option<(int, int)>

    constructor(uuid: Option<string>, hidden: Option<bool>, runs: seq<int>, bounds: array<int>)
      ensures this.uuid == uuid && this.hidden == hidden && data == Runs(runs)
      ensures this.bounds == bounds && size == None
    {
      this.uuid := uuid;
      this.hidden := hidden;
      data := Runs(runs);
      this.bounds := bounds;
      size := None;
    }

    /** A part as the editor saves it: run-length data and six bounds. */
    predicate Untrimmed()
      reads this
    {
      data.Runs? && bounds.Length >= 6
    }

    /**
     * trimPart: crops the unfolded voxels to the bounds, records the x and y
     * size, rebases the bounds in place and packs the voxels into a string.
     */
    method TrimPart()
      requires Untrimmed()
      modifies this, bounds
      ensures data == Chars(Trimmed(old(data.runs), old(bounds[..])))
      ensures bounds[..] == Rebased(old(bounds[..]))
      ensures size == Some(SizeOf(old(bounds[..])))
      ensures uuid == old(uuid) && hidden == old(hidden)
    {
      var voxels := UnfoldArray(data.runs);
      var x0, x1, y0, y1, z0, z1 := bounds[0], bounds[1], bounds[2], bounds[3], bounds[4], bounds[5];
      var newData := CropLoops(voxels, x0, x1, y0, y1, z0, z1);
      size := Some((x1 - x0 + 1, y1 - y0 + 1));
      bounds[1] := bounds[1] - bounds[0];
      bounds[0] := 0;
      bounds[3] := bounds[3] - bounds[2];
      bounds[2] := 0;
      bounds[5] := bounds[5] - bounds[4];
      bounds[4] := 0;
      data := Chars(PackVoxels(newData));
    }

    /** This part holds what trimPart makes of it as it was in the earlier state. */
    twostate predicate TrimmedSince()
      reads this, bounds
    {
      && old(data).Runs? && bounds.Length >= 6
      && data == Chars(Trimmed(old(data).runs, old(bounds[..])))
      && bounds[..] == Rebased(old(bounds[..]))
      && size == Some(SizeOf(old(bounds[..])))
      && uuid == old(uuid) && hidden == old(hidden)
    }

    /** This part's voxels, bounds and properties are as they were in the earlier state. */
    twostate predicate UnchangedSince()
      reads this, bounds
    {
      && data == old(data) && bounds[..] == old(bounds[..])
      && uuid == old(uuid) && hidden == old(hidden)
    }
  }

  const SpriteStackModel: string := "SpriteStackModel"

  /** The parsed JSON file; a property the file does not have, or one deleted, is None. */
  class SpriteModel {
    var formatVersion: Option<int>
    var fileType: Option<string>
    var size: Option<seq<int>>
    var bounds: Option<seq<int>>
    var palette: seq<int>
    var parts: seq<Part>

    constructor(formatVersion: Option<int>, fileType: Option<string>, palette: seq<int>, parts: seq<Part>)
      ensures this.formatVersion == formatVersion && this.fileType == fileType
      ensures this.palette == palette && this.parts == parts
      ensures size == None && bounds == None
    {
      this.formatVersion := formatVersion;
      this.fileType := fileType;
      size := None;
      bounds := None;
      this.palette := palette;
      this.parts := parts;
    }

    /** JSON.parse makes a fresh object and a fresh bounds array for every part. */
    ghost predicate Valid()
      reads this
    {
      forall i, j :: 0 <= i < j < |parts| ==> parts[i] != parts[j] && parts[i].bounds != parts[j].bounds
    }

    predicate Untrimmed()
      reads this, parts
    {
      forall i :: 0 <= i < |parts| ==> parts[i].Untrimmed()
    }

    /** The test at the head of transform: a SpriteStack model of format 2. */
    predicate IsFormat2()
      reads this
    {
      fileType == Some(SpriteStackModel) && formatVersion == Some(2)
    }

    /** deleteUnusedProperties: the four header properties and each part's uuid and hidden flag go. */
    method DeleteUnusedProperties()
      modifies this, parts
      ensures formatVersion == None && fileType == None && size == None && bounds == None
      ensures palette == old(palette) && parts == old(parts)
      ensures forall i :: 0 <= i < |parts| ==> parts[i].uuid == None && parts[i].hidden == None
      ensures forall i :: 0 <= i < |parts| ==> parts[i].data == old(parts[i].data) && parts[i].size == old(parts[i].size)
    {
      formatVersion := None;
      fileType := None;
      size := None;
      bounds := None;
      var i := 0;
      while i < |parts|
        invariant 0 <= i <= |parts|
        invariant formatVersion == None && fileType == None && size == None && bounds == None
        invariant palette == old(palette) && parts == old(parts)
        invariant forall j :: 0 <= j < i ==> parts[j].uuid == None && parts[j].hidden == None
        invariant forall j :: 0 <= j < |parts| ==> parts[j].data == old(parts[j].data) && parts[j].size == old(parts[j].size)
      {
        parts[i].uuid := None;
        parts[i].hidden := None;
        i := i + 1;
      }
    }

    /** trimPalette: pops the last colour while it is 0. */
    method TrimPalette()
      modifies this
      ensures palette == TrimZeros(old(palette))
      ensures formatVersion == old(formatVersion) && fileType == old(fileType)
      ensures size == old(size) && bounds == old(bounds) && parts == old(parts)
    {
      while |palette| > 0 && palette[|palette| - 1] == 0
        invariant TrimZeros(palette) == TrimZeros(old(palette))
        invariant formatVersion == old(formatVersion) && fileType == old(fileType)
        invariant size == old(size) && bounds == old(bounds) && parts == old(parts)
      {
        palette := palette[..|palette| - 1];
      }
    }

    /** trimParts: trimPart on every part, in order. */
    method TrimParts()
      requires Valid() && Untrimmed()
      modifies parts, set i | 0 <= i < |parts| :: parts[i].bounds
      ensures forall i :: 0 <= i < |parts| ==>
        && parts[i].data == Chars(Trimmed(old(parts[i].data.runs), old(parts[i].bounds[..])))
        && parts[i].bounds[..] == Rebased(old(parts[i].bounds[..]))
        && parts[i].size == Some(SizeOf(old(parts[i].bounds[..])))
        && parts[i].uuid == old(parts[i].uuid) && parts[i].hidden == old(parts[i].hidden)
    {
      var i := 0;
      while i < |parts|
        invariant 0 <= i <= |parts|
        invariant forall j :: 0 <= j < i ==> parts[j].TrimmedSince()
        invariant forall j :: i <= j < |parts| ==> parts[j].UnchangedSince()
      {
        parts[i].TrimPart();
        i := i + 1;
      }
    }

    /**
     * transform: a file the filter accepts that is a SpriteStack model of
     * format 2 is stripped and kept; anything else is passed over (null)
     * and left as it was. A stripped file has no file type, so it is never
     * stripped twice.
     */
    method Transform(included: bool) returns (kept: bool)
      requires Valid()
      requires included && IsFormat2() ==> Untrimmed()
      modifies this, parts, set i | 0 <= i < |parts| :: parts[i].bounds
      ensures kept <==> included && old(IsFormat2())
      ensures !kept ==> unchanged(this) && forall i :: 0 <= i < |parts| ==> unchanged(parts[i]) && unchanged(parts[i].bounds)
      ensures kept ==> !IsFormat2() && formatVersion == None && fileType == None && size == None && bounds == None
      ensures kept ==> palette == TrimZeros(old(palette)) && parts == old(parts)
      ensures kept ==> forall i :: 0 <= i < |parts| ==>
        && parts[i].data == Chars(Trimmed(old(parts[i].data.runs), old(parts[i].bounds[..])))
        && parts[i].bounds[..] == Rebased(old(parts[i].bounds[..]))
        && parts[i].size == Some(SizeOf(old(parts[i].bounds[..])))
        && parts[i].uuid == None && parts[i].hidden == None
    {
      if !included || !IsFormat2() {
        return false;
      }
      DeleteUnusedProperties();
      TrimPalette();
      TrimParts();
      kept := true;
    }
  }
}
