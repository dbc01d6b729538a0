/**
 * Bitmap text (src/text.ts): glyph widths decoded from the glyph numbers,
 * the size of a block of text, the layout of its glyphs, and the pixels
 * written into an RGBA image buffer.
 *
 * A text image is `width * height * 4` bytes, pixel (x, y) at byte
 * `(y * width + x) * 4`. Lines are 6 pixels high with 3 pixels between
 * them, and glyphs on a line are 1 pixel apart.
 */
module Text {
  import opened Wrappers
  import opened JsBuiltins
  import opened Letters
  import opened Colors

  /** The glyph numbers by character (the letters object of src/letters.js). */
  type LetterTable = char -> Option<nat>

  const LetterSpacing: int := 1
  const LineSpacing: int := 3

  /** getLetterWidth: the bit length of the glyph number, less the sentinel, over the six rows. */
  function GetLetterWidth(pixels: nat): real {
    (BinaryLength(pixels) - 1) as real / LetterHeight as real
  }

  /** Decoding the width undoes the encoder: letter(w) of lines that fit w has width w. */
  lemma LetterWidthRoundTrip(width: nat, lines: seq<string>)
    requires |lines| == LetterHeight
    requires forall i :: 0 <= i < |lines| ==> |lines[i]| <= width
    ensures GetLetterWidth(LetterOfLines(width, lines)) == width as real
  {
    LetterOfLinesBits(width, lines);
  }

  /** The width of a character's glyph in whole pixels; 0 for a character without one. */
  function CharWidth(letters: LetterTable, c: char): nat {
    match letters(c)
    case None => 0
    case Some(pixels) => (BinaryLength(pixels) - 1) / LetterHeight
  }

  /**
   * A glyph table as text.ts reads it: every number in it is positive and
   * its bit length less the sentinel is a whole number of six-pixel columns.
   */
  ghost predicate WellFormedTable(letters: LetterTable) {
    forall c :: letters(c).Some? ==>
      letters(c).value >= 1 && (BinaryLength(letters(c).value) - 1) % LetterHeight == 0
  }

  /** In a well-formed table getLetterWidth is the whole number CharWidth. */
  lemma CharWidthIsLetterWidth(letters: LetterTable, c: char)
    requires WellFormedTable(letters) && letters(c).Some?
    ensures CharWidth(letters, c) as real == GetLetterWidth(letters(c).value)
  {
    var n := BinaryLength(letters(c).value) - 1;
    assert n == (n / LetterHeight) * LetterHeight;
  }

  /** The game's table is well formed. */
  lemma GameTableWellFormed()
    ensures WellFormedTable(LetterNumber)
  {
    var letters: LetterTable := LetterNumber;
    forall c | letters(c).Some?
      ensures letters(c).value >= 1 && (BinaryLength(letters(c).value) - 1) % LetterHeight == 0
    {
      assert letters(c) == LetterNumber(c);
      LettersShape(c);
      SixRows(GlyphOf(c).value.width);
    }
  }

  lemma SixRows(w: nat)
    ensures (LetterHeight * w + 1 - 1) % LetterHeight == 0
    ensures (LetterHeight * w + 1 - 1) / LetterHeight == w
  {
  }

  /** Each glyph of the game's table decodes to its declared width, 1 to 5 pixels. */
  lemma GameGlyphWidth(c: char)
    requires GlyphOf(c).Some?
    ensures CharWidth(LetterNumber, c) == GlyphOf(c).value.width
    ensures 1 <= CharWidth(LetterNumber, c) <= 5
  {
    LettersShape(c);
    TableWellFormed();
  }

  // -----------------------------------------------------------------------
  // Text size.

  /** reduce((width, char) => width + getLetterWidth(letters[char]), acc). */
  function ReduceWidths(letters: LetterTable, acc: int, line: string): int
    decreases |line|
  {
    if line == [] then acc else ReduceWidths(letters, acc + CharWidth(letters, line[0]), line[1..])
  }

  /** getLineWidth: the glyph widths plus one pixel between neighbouring glyphs. */
  function LineWidth(letters: LetterTable, line: string): int {
    ReduceWidths(letters, Max(|line| - 1, 0) * LetterSpacing, line)
  }

  function Max(a: int, b: int): int {
    if a >= b then a else b
  }

  /** Math.max over a non-empty list. */
  function MaxOf(s: seq<int>): (m: int)
    requires |s| >= 1
    ensures forall i :: 0 <= i < |s| ==> s[i] <= m
    ensures exists i :: 0 <= i < |s| && s[i] == m
    decreases |s|
  {
    if |s| == 1 then s[0]
    else
      var rest := MaxOf(s[1..]);
      assert forall i :: 1 <= i < |s| ==> s[i] == s[1..][i - 1];
      Max(s[0], rest)
  }

  function LineWidths(letters: LetterTable, lines: seq<string>): (widths: seq<int>)
    ensures |widths| == |lines|
    ensures forall i :: 0 <= i < |lines| ==> widths[i] == LineWidth(letters, lines[i])
  {
    seq(|lines|, i requires 0 <= i < |lines| => LineWidth(letters, lines[i]))
  }

  /** getTextSize: the widest line, and 9 pixels per line less the spacing under the last. */
  function TextSize(letters: LetterTable, text: string): (int, int) {
    var lines := Split(text, '\n');
    (MaxOf(LineWidths(letters, lines)), |lines| * (LetterHeight + LineSpacing) - LineSpacing)
  }

  /** How far a line moves the pen: each glyph's width plus the one-pixel gap after it. */
  function Advance(letters: LetterTable, line: string): nat
    decreases |line|
  {
    if line == [] then 0 else LetterSpacing + CharWidth(letters, line[0]) + Advance(letters, line[1..])
  }

  lemma {:induction false} ReduceWidthsAdvance(letters: LetterTable, acc: int, line: string)
    ensures ReduceWidths(letters, acc, line) + |line| == acc + Advance(letters, line)
    decreases |line|
  {
    if line != [] {
      ReduceWidthsAdvance(letters, acc + CharWidth(letters, line[0]), line[1..]);
    }
  }

  /** A line is as wide as the pen moves over it, less the gap after its last glyph. */
  lemma LineWidthAdvance(letters: LetterTable, line: string)
    ensures line == [] ==> LineWidth(letters, line) == 0
    ensures line != [] ==> LineWidth(letters, line) + 1 == Advance(letters, line)
    ensures LineWidth(letters, line) >= 0
  {
    ReduceWidthsAdvance(letters, Max(|line| - 1, 0), line);
  }

  /**
   * The text box: the height is 9 pixels a line less 3, the width is the
   * width of the widest line, and no line is wider.
   */
  lemma TextSizeMeaning(letters: LetterTable, text: string)
    ensures TextSize(letters, text).1 == |Split(text, '\n')| * 9 - 3 >= 6
    ensures forall j :: 0 <= j < |Split(text, '\n')| ==>
      LineWidth(letters, Split(text, '\n')[j]) <= TextSize(letters, text).0
    ensures exists j :: 0 <= j < |Split(text, '\n')| && LineWidth(letters, Split(text, '\n')[j]) == TextSize(letters, text).0
    ensures TextSize(letters, text).0 >= 0
  {
    var lines := Split(text, '\n');
    LineWidthAdvance(letters, lines[0]);
  }

  // -----------------------------------------------------------------------
  // Layout.

  /** A glyph placed with its top-left pixel at (x, y). */
  datatype Placement = Placement(x: int, y: int, c: char)

  /**
   * The layout loop of getTextImage from pen position (x, y): a line break
   * moves 9 pixels down to the start of the line, and any other character
   * is placed at the pen and moves it right by its width plus one.
   */
  function LayoutFrom(letters: LetterTable, text: string, x: int, y: int): seq<Placement>
    decreases |text|
  {
    if text == [] then []
    else if text[0] == '\n' then LayoutFrom(letters, text[1..], 0, y + LetterHeight + LineSpacing)
    else [Placement(x, y, text[0])] + LayoutFrom(letters, text[1..], x + LetterSpacing + CharWidth(letters, text[0]), y)
  }

  function Layout(letters: LetterTable, text: string): seq<Placement> {
    LayoutFrom(letters, text, 0, 0)
  }

  /**
   * From pen position (x, y): when the rest of the current line fits under
   * `bound` and every later line is no wider than `bound`, every placed glyph
   * lies between x = 0 and `bound` and between y and the bottom of the last line.
   */
  lemma {:induction false} LayoutWithin(letters: LetterTable, text: string, x: int, y: int, bound: int)
    requires x >= 0
    requires x + Advance(letters, Split(text, '\n')[0]) <= bound + 1
    requires forall j :: 1 <= j < |Split(text, '\n')| ==> LineWidth(letters, Split(text, '\n')[j]) <= bound
    ensures forall p :: p in LayoutFrom(letters, text, x, y) ==>
      && 0 <= p.x && p.x + CharWidth(letters, p.c) <= bound
      && y <= p.y && p.y + LetterHeight <= y + |Split(text, '\n')| * 9 - 3
    decreases |text|
  {
    if text != [] {
      var rest := Split(text[1..], '\n');
      if text[0] == '\n' {
        assert Split(text, '\n') == [""] + rest;
        forall j | 1 <= j < |rest|
          ensures LineWidth(letters, rest[j]) <= bound
        {
          assert rest[j] == Split(text, '\n')[j + 1];
        }
        LineWidthAdvance(letters, rest[0]);
        assert LineWidth(letters, rest[0]) <= bound by {
          assert rest[0] == Split(text, '\n')[1];
        }
        LayoutWithin(letters, text[1..], 0, y + 9, bound);
      } else {
        assert Split(text, '\n') == [[text[0]] + rest[0]] + rest[1..];
        assert Advance(letters, [text[0]] + rest[0]) == 1 + CharWidth(letters, text[0]) + Advance(letters, rest[0]) by {
          assert ([text[0]] + rest[0])[1..] == rest[0];
        }
        forall j | 1 <= j < |rest|
          ensures LineWidth(letters, rest[j]) <= bound
        {
          assert rest[j] == Split(text, '\n')[j];
        }
        LayoutWithin(letters, text[1..], x + 1 + CharWidth(letters, text[0]), y, bound);
      }
    }
  }

  /** Every glyph of the layout lies inside the box getTextSize gives. */
  lemma LayoutInBox(letters: LetterTable, text: string)
    ensures forall p :: p in Layout(letters, text) ==>
      && 0 <= p.x && p.x + CharWidth(letters, p.c) <= TextSize(letters, text).0
      && 0 <= p.y && p.y + LetterHeight <= TextSize(letters, text).1
  {
    var lines := Split(text, '\n');
    TextSizeMeaning(letters, text);
    LineWidthAdvance(letters, lines[0]);
    LayoutWithin(letters, text, 0, 0, TextSize(letters, text).0);
  }

  // -----------------------------------------------------------------------
  // Pixels.

  /** The pixel index drawLetter colours for bit i of a glyph of width w placed at (x, y). */
  function Cell(imageWidth: int, x: int, y: int, w: nat, i: nat): int
    requires w > 0
  {
    (y + i / w) * imageWidth + x + i % w
  }

  /** The buffer after the first `upto` bits of a glyph: each set bit colours its pixel. */
  function PaintLetter(data: seq<byte>, imageWidth: int, rgb: seq<int>, pixels: nat, w: nat,
                       x: int, y: int, upto: nat): (r: seq<byte>)
    requires |rgb| == 3 && upto <= w * LetterHeight
    ensures |r| == |data|
    decreases upto
  {
    if upto == 0 then data
    else
      var before := PaintLetter(data, imageWidth, rgb, pixels, w, x, y, upto - 1);
      if Bit(pixels, upto - 1) then PutColorSpec(before, Cell(imageWidth, x, y, w, upto - 1) * 4, rgb)
      else before
  }

  /** Some set bit below `upto` colours the pixel with index `pixel`. */
  ghost predicate Lit(imageWidth: int, pixels: nat, w: nat, x: int, y: int, upto: nat, pixel: int) {
    exists i :: 0 <= i < upto && Bit(pixels, i) && w > 0 && Cell(imageWidth, x, y, w, i) == pixel
  }

  /**
   * What drawLetter does to the buffer: every byte of a pixel coloured by a
   * set bit holds the colour (or 255 for alpha), and every other byte is
   * unchanged.
   */
  lemma {:induction false} PaintLetterMeaning(data: seq<byte>, imageWidth: nat, rgb: seq<int>, pixels: nat,
                                              w: nat, x: nat, y: nat, upto: nat)
    requires |rgb| == 3 && upto <= w * LetterHeight
    ensures forall k :: 0 <= k < |data| ==>
      PaintLetter(data, imageWidth, rgb, pixels, w, x, y, upto)[k] ==
        if Lit(imageWidth, pixels, w, x, y, upto, k / 4) then Rgba(rgb, k % 4) else data[k]
    decreases upto
  {
    if upto > 0 {
      var i := upto - 1;
      PaintLetterMeaning(data, imageWidth, rgb, pixels, w, x, y, i);
      var before := PaintLetter(data, imageWidth, rgb, pixels, w, x, y, i);
      forall k | 0 <= k < |data|
        ensures PaintLetter(data, imageWidth, rgb, pixels, w, x, y, upto)[k] ==
          if Lit(imageWidth, pixels, w, x, y, upto, k / 4) then Rgba(rgb, k % 4) else data[k]
      {
        var cell := Cell(imageWidth, x, y, w, i);
        if Bit(pixels, i) && cell == k / 4 {
          assert cell * 4 <= k < cell * 4 + 4 && k - cell * 4 == k % 4;
          assert Lit(imageWidth, pixels, w, x, y, upto, k / 4);
        } else {
          if Bit(pixels, i) {
            assert !(cell * 4 <= k < cell * 4 + 4);
          }
          if Lit(imageWidth, pixels, w, x, y, upto, k / 4) {
            var j :| 0 <= j < upto && Bit(pixels, j) && w > 0 && Cell(imageWidth, x, y, w, j) == k / 4;
            assert j != i;
            assert Lit(imageWidth, pixels, w, x, y, i, k / 4);
          }
        }
      }
    }
  }

  /** A glyph whose box lies inside the image colours pixels of the image only, each in its own row. */
  lemma CellInImage(imageWidth: nat, imageHeight: nat, x: nat, y: nat, w: nat, i: nat)
    requires w > 0 && i < w * LetterHeight
    requires x + w <= imageWidth && y + LetterHeight <= imageHeight
    ensures x <= x + i % w < imageWidth && y <= y + i / w < imageHeight
    ensures 0 <= Cell(imageWidth, x, y, w, i) < imageWidth * imageHeight
  {
    var row, col := i / w, i % w;
    DivBelow(i, w, LetterHeight);
    assert (y + row) * imageWidth + x + col < (y + row) * imageWidth + imageWidth;
    assert (y + row) * imageWidth + imageWidth == (y + row + 1) * imageWidth;
    MulMonotone(y + row + 1, imageHeight, imageWidth);
  }

  /**
   * Every pixel drawLetter colours for a glyph of the layout is inside the
   * text image, in the glyph's own rows and columns: no write wraps into the
   * next row or falls outside the buffer.
   */
  lemma LayoutPixelsInImage(letters: LetterTable, text: string, p: Placement, i: nat)
    requires p in Layout(letters, text)
    requires i < CharWidth(letters, p.c) * LetterHeight
    ensures CharWidth(letters, p.c) > 0
    ensures 0 <= p.x + i % CharWidth(letters, p.c) < TextSize(letters, text).0
    ensures 0 <= p.y + i / CharWidth(letters, p.c) < TextSize(letters, text).1
    ensures 0 <= Cell(TextSize(letters, text).0, p.x, p.y, CharWidth(letters, p.c), i)
              < TextSize(letters, text).0 * TextSize(letters, text).1
  {
    LayoutInBox(letters, text);
    CellInImage(TextSize(letters, text).0, TextSize(letters, text).1, p.x, p.y, CharWidth(letters, p.c), i);
  }

  lemma DivBelow(i: nat, w: nat, n: nat)
    requires w > 0 && i < w * n
    ensures i / w < n
  {
    assert (i / w) * w <= i;
    if i / w >= n {
      MulMonotone(n, i / w, w);
    }
  }

  lemma MulMonotone(a: nat, b: nat, c: nat)
    requires a <= b
    ensures a * c <= b * c
  {
  }

  /** The buffer after drawLetter for one placed glyph; a character without a glyph draws nothing. */
  function PaintGlyph(letters: LetterTable, data: seq<byte>, imageWidth: int, rgb: seq<int>, p: Placement): (r: seq<byte>)
    requires |rgb| == 3
    ensures |r| == |data|
  {
    match letters(p.c)
    case None => data
    case Some(pixels) =>
      PaintLetter(data, imageWidth, rgb, pixels, CharWidth(letters, p.c), p.x, p.y, CharWidth(letters, p.c) * LetterHeight)
  }

  /** The buffer after drawing the placements in order. */
  function PaintAll(letters: LetterTable, data: seq<byte>, imageWidth: int, rgb: seq<int>,
                    placements: seq<Placement>): (r: seq<byte>)
    requires |rgb| == 3
    ensures |r| == |data|
    decreases |placements|
  {
    if placements == [] then data
    else
      PaintGlyph(letters, PaintAll(letters, data, imageWidth, rgb, placements[..|placements| - 1]), imageWidth, rgb,
                 placements[|placements| - 1])
  }

  lemma PaintAllAppend(letters: LetterTable, data: seq<byte>, imageWidth: int, rgb: seq<int>,
                       placements: seq<Placement>, p: Placement)
    requires |rgb| == 3
    ensures PaintAll(letters, data, imageWidth, rgb, placements + [p]) ==
      PaintGlyph(letters, PaintAll(letters, data, imageWidth, rgb, placements), imageWidth, rgb, p)
  {
    assert (placements + [p])[..|placements|] == placements;
  }

  /** Whether the development build accepts the text: each character is a line break or has a glyph. */
  predicate Printable(letters: LetterTable, text: string) {
    forall i :: 0 <= i < |text| ==> text[i] == '\n' || letters(text[i]).Some?
  }

  /** drawLetter: tests the 6w bits of the glyph and colours the pixel of each set one. */
  method DrawLetter(letters: LetterTable, data: array<byte>, imageWidth: int, color: string,
                    letterX: int, letterY: int, c: char)
    requires color in Channels
    requires letters(c).Some?
    modifies data
    ensures data[..] == PaintGlyph(letters, old(data[..]), imageWidth, Channels[color], Placement(letterX, letterY, c))
  {
    var pixels := letters(c).value;
    var letterWidth := CharWidth(letters, c);
    var index := 0;
    while index < letterWidth * LetterHeight
      invariant 0 <= index <= letterWidth * LetterHeight
      invariant data[..] == PaintLetter(old(data[..]), imageWidth, Channels[color], pixels, letterWidth,
                                        letterX, letterY, index)
    {
      if Bit(pixels, index) {
        var x := letterX + index % letterWidth;
        var y := letterY + index / letterWidth;
        PutColor(data, (y * imageWidth + x) * 4, color);
      }
      index := index + 1;
    }
  }

  /** The all-zero buffer of a new image. */
  function Blank(size: nat): (r: seq<byte>)
    ensures |r| == size && forall k :: 0 <= k < size ==> r[k] == 0
  {
    seq(size, _ => 0)
  }

  /** Having placed `placed`, the layout loop at character i with the pen at (x, y) completes the layout. */
  ghost predicate Pending(letters: LetterTable, text: string, i: nat, x: int, y: int, placed: seq<Placement>) {
    i <= |text| && placed + LayoutFrom(letters, text[i..], x, y) == Layout(letters, text)
  }

  lemma LayoutDone(letters: LetterTable, text: string, x: int, y: int, placed: seq<Placement>)
    requires Pending(letters, text, |text|, x, y, placed)
    ensures placed == Layout(letters, text)
  {
    assert text[|text|..] == [];
  }

  /** A line break in the layout loop moves the pen to the start of the next line. */
  lemma LayoutBreak(letters: LetterTable, text: string, i: nat, x: int, y: int, placed: seq<Placement>)
    requires i < |text| && text[i] == '\n'
    requires Pending(letters, text, i, x, y, placed)
    ensures Pending(letters, text, i + 1, 0, y + LetterHeight + LineSpacing, placed)
  {
    assert text[i..][1..] == text[i + 1..];
  }

  /** A glyph in the layout loop is placed at the pen, which then moves past it. */
  lemma LayoutGlyph(letters: LetterTable, text: string, i: nat, x: int, y: int, placed: seq<Placement>)
    requires i < |text| && text[i] != '\n'
    requires Pending(letters, text, i, x, y, placed)
    ensures Pending(letters, text, i + 1, x + LetterSpacing + CharWidth(letters, text[i]), y, placed + [Placement(x, y, text[i])])
  {
    assert text[i..][1..] == text[i + 1..];
    var rest := LayoutFrom(letters, text[i + 1..], x + LetterSpacing + CharWidth(letters, text[i]), y);
    assert LayoutFrom(letters, text[i..], x, y) == [Placement(x, y, text[i])] + rest;
    assert (placed + [Placement(x, y, text[i])]) + rest == placed + ([Placement(x, y, text[i])] + rest);
  }

  /**
   * getTextImage without the canvas: a fresh all-zero buffer of the text's
   * size, with every glyph drawn at its place in the layout.
   */
  method GetTextImage(letters: LetterTable, text: string, color: string) returns (width: int, height: int, data: array<byte>)
    requires color in Channels
    requires Printable(letters, text)
    ensures (width, height) == TextSize(letters, text)
    ensures fresh(data) && data.Length == width * height * 4
    ensures data[..] == PaintAll(letters, Blank(width * height * 4), width, Channels[color], Layout(letters, text))
  {
    width, height := TextSize(letters, text).0, TextSize(letters, text).1;
    assert width >= 0 && height >= 6 by {
      TextSizeMeaning(letters, text);
    }
    var size := width * height * 4;
    assert size >= 0 by {
      MulMonotone(0, height, width);
    }
    data := new byte[size](_ => 0);
    ghost var blank := data[..];
    assert blank == Blank(size);
    ghost var placed: seq<Placement> := [];
    var y := 0;
    var offset := 0;
    var i := 0;
    while i < |text|
      invariant 0 <= i <= |text|
      invariant Pending(letters, text, i, offset, y, placed)
      invariant data[..] == PaintAll(letters, blank, width, Channels[color], placed)
    {
      var c := text[i];
      if c == '\n' {
        LayoutBreak(letters, text, i, offset, y, placed);
        y := y + LetterHeight + LineSpacing;
        offset := 0;
      } else {
        LayoutGlyph(letters, text, i, offset, y, placed);
        DrawLetter(letters, data, width, color, offset, y, c);
        PaintAllAppend(letters, blank, width, Channels[color], placed, Placement(offset, y, c));
        placed := placed + [Placement(offset, y, c)];
        offset := offset + LetterSpacing + CharWidth(letters, c);
      }
      i := i + 1;
    }
    LayoutDone(letters, text, offset, y, placed);
  }
}
