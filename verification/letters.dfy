/**
 * The bitmap glyph encoder (src/letters.js). A glyph is drawn as a template
 * string; `letter(width)` keeps its lines 1 to 6, pads each to the width,
 * and packs the pixels into one number: bit i is set when character i of
 * the padded lines is not a space, and a sentinel bit above them all marks
 * the length.
 */
module Letters {
  import opened Wrappers
  import opened JsBuiltins

  const LetterHeight: nat := 6

  function Pixel(c: char): nat {
    if c == ' ' then 0 else 1
  }

  function Reverse(s: string): (r: string)
    ensures |r| == |s|
    decreases |s|
  {
    if s == [] then [] else Reverse(s[1..]) + [s[0]]
  }

  /** reduce((letter, pixel) => letter * 2 + (pixel === ' ' ? 0 : 1), acc). */
  function ReducePixels(acc: nat, s: string): nat
    decreases |s|
  {
    if s == [] then acc else ReducePixels(acc * 2 + Pixel(s[0]), s[1..])
  }

  /** Array.prototype.slice(start, end) for 0 <= start <= end. */
  function Slice<T>(s: seq<T>, start: nat, end: nat): (r: seq<T>)
    requires start <= end
    ensures |s| >= end ==> r == s[start..end]
    ensures |r| <= end - start
  {
    if |s| <= start then [] else if |s| <= end then s[start..] else s[start..end]
  }

  function PadLines(lines: seq<string>, width: nat): (padded: seq<string>)
    ensures |padded| == |lines|
    ensures forall i :: 0 <= i < |lines| ==> padded[i] == PadEnd(lines[i], width)
  {
    seq(|lines|, i requires 0 <= i < |lines| => PadEnd(lines[i], width))
  }

  /** The glyph number of lines 1 to 6 (already split out of the template). */
  function LetterOfLines(width: nat, lines: seq<string>): nat {
    ReducePixels(1, Reverse(Join(PadLines(lines, width), "")))
  }

  /** letter(width)`template`. */
  function Letter(width: nat, template: string): nat {
    LetterOfLines(width, Slice(Split(template, '\n'), 1, 7))
  }

  // -----------------------------------------------------------------------
  // The number as bits.

  /** The closed form: pixel 0 is the lowest bit and `acc` sits above the last pixel. */
  function PackFrom(acc: nat, s: string): nat
    decreases |s|
  {
    if s == [] then acc else Pixel(s[0]) + 2 * PackFrom(acc, s[1..])
  }

  /** Bit i of n: (n >> i) & 1, for numbers of any size. */
  predicate Bit(n: nat, i: nat)
    decreases i
  {
    if i == 0 then n % 2 == 1 else Bit(n / 2, i - 1)
  }

  /** n.toString(2).length. */
  function BinaryLength(n: nat): (len: nat)
    ensures len >= 1
    decreases n
  {
    if n < 2 then 1 else 1 + BinaryLength(n / 2)
  }

  lemma {:induction false} ReduceAppend(acc: nat, t: string, c: char)
    ensures ReducePixels(acc, t + [c]) == 2 * ReducePixels(acc, t) + Pixel(c)
    decreases |t|
  {
    if t != [] {
      assert (t + [c])[1..] == t[1..] + [c];
      ReduceAppend(acc * 2 + Pixel(t[0]), t[1..], c);
    }
  }

  /** Folding over the reversed pixels is the closed form. */
  lemma {:induction false} ReduceReverse(acc: nat, s: string)
    ensures ReducePixels(acc, Reverse(s)) == PackFrom(acc, s)
    decreases |s|
  {
    if s != [] {
      ReduceAppend(acc, Reverse(s[1..]), s[0]);
      ReduceReverse(acc, s[1..]);
    }
  }

  /**
   * Under the sentinel 1, bit i of the packed number is pixel i, the
   * sentinel is bit |s|, and the number has |s| + 1 binary digits.
   */
  lemma {:induction false} PackBits(s: string)
    ensures PackFrom(1, s) >= 1
    ensures forall i :: 0 <= i < |s| ==> (Bit(PackFrom(1, s), i) <==> s[i] != ' ')
    ensures Bit(PackFrom(1, s), |s|)
    ensures BinaryLength(PackFrom(1, s)) == |s| + 1
    decreases |s|
  {
    if s != [] {
      var rest := s[1..];
      PackBits(rest);
      var n := PackFrom(1, s);
      assert n / 2 == PackFrom(1, rest);
      forall i | 0 <= i < |s|
        ensures Bit(n, i) <==> s[i] != ' '
      {
        if i > 0 {
          assert rest[i - 1] == s[i];
        }
      }
    }
  }

  /** Lines of one width, joined without a separator, take width characters each. */
  lemma {:induction false} JoinRowsLength(rows: seq<string>, width: nat)
    requires forall i :: 0 <= i < |rows| ==> |rows[i]| == width
    ensures |Join(rows, "")| == |rows| * width
    decreases |rows|
  {
    if |rows| > 1 {
      var tail := rows[1..];
      JoinRowsLength(tail, width);
      assert Join(rows, "") == rows[0] + Join(tail, "");
      assert |rows| * width == width + |tail| * width;
    }
  }

  /** ... and sit row after row: column c of row r is character r * width + c. */
  lemma {:induction false} JoinRowsAt(rows: seq<string>, width: nat, r: nat, c: nat)
    requires forall i :: 0 <= i < |rows| ==> |rows[i]| == width
    requires r < |rows| && c < width
    ensures r * width + c < |Join(rows, "")|
    ensures Join(rows, "")[r * width + c] == rows[r][c]
    decreases r
  {
    JoinRowsLength(rows, width);
    RowBound(r, |rows|, width, c);
    if |rows| > 1 {
      var tail := rows[1..];
      assert Join(rows, "") == rows[0] + Join(tail, "");
      if r > 0 {
        JoinRowsAt(tail, width, r - 1, c);
        RowOffset(r, width, c);
      }
    }
  }

  lemma RowOffset(r: nat, width: nat, c: nat)
    requires r > 0
    ensures r * width + c == width + ((r - 1) * width + c)
  {
  }

  lemma RowBound(r: nat, rows: nat, width: nat, c: nat)
    requires r < rows && c < width
    ensures r * width + c < rows * width
  {
    assert (r + 1) * width <= rows * width;
  }

  /** A line no longer than the width pads to exactly the width, with spaces after the line. */
  lemma PaddedLine(line: string, width: nat, c: nat)
    requires |line| <= width && c < width
    ensures |PadEnd(line, width)| == width
    ensures PadEnd(line, width)[c] == if c < |line| then line[c] else ' '
  {
    var padded := PadEnd(line, width);
    if c < |line| && |line| < width {
      assert padded[..|line|][c] == line[c];
    }
  }

  lemma OneLineLength(lines: seq<string>, width: nat)
    requires forall i :: 0 <= i < |lines| ==> |lines[i]| <= width
    ensures |Join(PadLines(lines, width), "")| == |lines| * width
    ensures forall i :: 0 <= i < |lines| ==> |PadLines(lines, width)[i]| == width
  {
    var padded := PadLines(lines, width);
    forall i | 0 <= i < |padded|
      ensures |padded[i]| == width
    {
      if |lines[i]| < width {
        PaddedLine(lines[i], width, 0);
      }
    }
    JoinRowsLength(padded, width);
  }

  /** Pixel (c, r) of lines that fit the width is character r * width + c of the one-line form. */
  lemma OneLineAt(lines: seq<string>, width: nat, r: nat, c: nat)
    requires forall i :: 0 <= i < |lines| ==> |lines[i]| <= width
    requires r < |lines| && c < width
    ensures |Join(PadLines(lines, width), "")| == |lines| * width
    ensures r * width + c < |Join(PadLines(lines, width), "")|
    ensures Join(PadLines(lines, width), "")[r * width + c] != ' ' <==> c < |lines[r]| && lines[r][c] != ' '
  {
    var padded := PadLines(lines, width);
    OneLineLength(lines, width);
    JoinRowsAt(padded, width, r, c);
    PaddedLine(lines[r], width, c);
  }

  /** A glyph whose six lines fit the width is a positive number with 6 * width + 1 binary digits. */
  lemma LetterOfLinesBits(width: nat, lines: seq<string>)
    requires |lines| == LetterHeight
    requires forall i :: 0 <= i < |lines| ==> |lines[i]| <= width
    ensures LetterOfLines(width, lines) >= 1
    ensures BinaryLength(LetterOfLines(width, lines)) == LetterHeight * width + 1
  {
    var oneLine := Join(PadLines(lines, width), "");
    OneLineLength(lines, width);
    ReduceReverse(1, oneLine);
    PackBits(oneLine);
  }

  /** The bit of pixel (c, r) in a glyph `width` columns wide: rows of `width` pixels, one after another. */
  function PixelIndex(width: nat, r: nat, c: nat): nat {
    r * width + c
  }

  /** The bit of pixel (c, r) of the glyph number is set exactly when line r has a non-space at column c. */
  lemma LetterOfLinesPixel(width: nat, lines: seq<string>, r: nat, c: nat)
    requires |lines| == LetterHeight
    requires forall i :: 0 <= i < |lines| ==> |lines[i]| <= width
    requires r < LetterHeight && c < width
    ensures Bit(LetterOfLines(width, lines), PixelIndex(width, r, c)) <==> c < |lines[r]| && lines[r][c] != ' '
  {
    var oneLine := Join(PadLines(lines, width), "");
    OneLineAt(lines, width, r, c);
    ReduceReverse(1, oneLine);
    PackBits(oneLine);
  }

  /** Splitting "line0\n...\nlineK\n" + tail on line breaks gives the lines back first. */
  lemma {:induction false} SplitJoinLines(lines: seq<string>, tail: string)
    requires |lines| >= 1
    requires forall i :: 0 <= i < |lines| ==> '\n' !in lines[i]
    ensures |Split(Join(lines, "\n") + "\n" + tail, '\n')| > |lines|
    ensures Split(Join(lines, "\n") + "\n" + tail, '\n')[..|lines|] == lines
    decreases |lines|
  {
    var s := Join(lines, "\n") + "\n" + tail;
    if |lines| == 1 {
      assert s == lines[0] + ['\n'] + tail;
      SplitAtFirst(lines[0], '\n', tail);
    } else {
      var others := lines[1..];
      var rest := Join(others, "\n") + "\n" + tail;
      assert Join(lines, "\n") == lines[0] + "\n" + Join(others, "\n");
      assert s == lines[0] + ['\n'] + rest;
      SplitAtFirst(lines[0], '\n', rest);
      assert forall i :: 0 <= i < |others| ==> others[i] == lines[i + 1];
      SplitJoinLines(others, tail);
      var parts := Split(s, '\n');
      assert parts == [lines[0]] + Split(rest, '\n');
      assert parts[..|lines|] == [lines[0]] + Split(rest, '\n')[..|others|];
      assert lines == [lines[0]] + others;
    }
  }

  /** The lines letter() reads from a template "\n" + six lines + "\n" + anything. */
  lemma TemplateLines(lines: seq<string>, tail: string)
    requires |lines| == LetterHeight
    requires forall i :: 0 <= i < |lines| ==> '\n' !in lines[i]
    ensures Slice(Split("\n" + Join(lines, "\n") + "\n" + tail, '\n'), 1, 7) == lines
  {
    var body := Join(lines, "\n") + "\n" + tail;
    SplitJoinLines(lines, tail);
    assert "\n" + Join(lines, "\n") + "\n" + tail == [] + ['\n'] + body;
    SplitAtFirst([], '\n', body);
    var parts := Split([] + ['\n'] + body, '\n');
    assert parts == [""] + Split(body, '\n');
    assert parts[1..7] == Split(body, '\n')[..6];
  }

  /**
   * letter(width) drops the text before the first line break and reads the
   * next six lines: a template "\n" + six lines + "\n" + anything encodes
   * exactly those lines.
   */
  lemma LetterReadsLinesOneToSix(width: nat, lines: seq<string>, tail: string)
    requires |lines| == LetterHeight
    requires forall i :: 0 <= i < |lines| ==> '\n' !in lines[i]
    ensures Letter(width, "\n" + Join(lines, "\n") + "\n" + tail) == LetterOfLines(width, lines)
  {
    TemplateLines(lines, tail);
  }

  // -----------------------------------------------------------------------
  // The glyph table.

  /** A glyph's declared width and the six template lines letter() reads. */
  datatype Glyph = Glyph(width: nat, lines: seq<string>)

  /** Six lines, none wider than the glyph, and a width of 1 to 5 columns. */
  ghost predicate GlyphFits(g: Glyph) {
    && |g.lines| == LetterHeight
    && 1 <= g.width <= 5
    && forall i :: 0 <= i < |g.lines| ==> |g.lines[i]| <= g.width
  }

  /** The six lines of a glyph checked one by one. */
  lemma SixLinesFit(g: Glyph)
    requires |g.lines| == LetterHeight && 1 <= g.width <= 5
    requires |g.lines[0]| <= g.width && |g.lines[1]| <= g.width && |g.lines[2]| <= g.width
    requires |g.lines[3]| <= g.width && |g.lines[4]| <= g.width && |g.lines[5]| <= g.width
    ensures GlyphFits(g)
  {
  }

  /** The glyphs 'a' 'b' 'c' 'd' 'e' 'f' 'g' 'h'. */
  function LowerAToH(c: char): Option<Glyph> {
    match c
    case 'a' => Some(Glyph(3, ["...", ". .", "...", ". .", ". .", ""]))
    case 'b' => Some(Glyph(3, ["..", ". .", "..", ". .", "..", ""]))
    case 'c' => Some(Glyph(3, ["...", ".", ".", ".", "...", ""]))
    case 'd' => Some(Glyph(3, ["..", ". .", ". .", ". .", "..", ""]))
    case 'e' => Some(Glyph(3, ["...", ".", "..", ".", "...", ""]))
    case 'f' => Some(Glyph(3, ["...", ".", "..", ".", ".", ""]))
    case 'g' => Some(Glyph(3, ["...", ".", ". .", ". .", "...", ""]))
    case 'h' => Some(Glyph(3, [". .", ". .", "...", ". .", ". .", ""]))
    case _ => None
  }

  lemma LowerAToHFit(c: char)
    ensures LowerAToH(c).Some? ==> GlyphFits(LowerAToH(c).value)
  {
    if LowerAToH(c).Some? {
      SixLinesFit(LowerAToH(c).value);
    }
  }

  /** The glyphs 'i' 'j' 'k' 'l' 'm' 'n' 'o' 'p'. */
  function LowerIToP(c: char): Option<Glyph> {
    match c
    case 'i' => Some(Glyph(1, [".", ".", ".", ".", ".", ""]))
    case 'j' => Some(Glyph(3, ["...", "  .", "  .", ". .", " ..", ""]))
    case 'k' => Some(Glyph(3, [". .", ". .", "..", ". .", ". .", ""]))
    case 'l' => Some(Glyph(3, [".", ".", ".", ".", "...", ""]))
    case 'm' => Some(Glyph(5, [".   .", ".. ..", ". . .", ".   .", ".   .", ""]))
    case 'n' => Some(Glyph(4, [".  .", ".. .", ". ..", ".  .", ".  .", ""]))
    case 'o' => Some(Glyph(3, ["...", ". .", ". .", ". .", "...", ""]))
    case 'p' => Some(Glyph(3, ["...", ". .", "...", ".", ".", ""]))
    case _ => None
  }

  lemma LowerIToPFit(c: char)
    ensures LowerIToP(c).Some? ==> GlyphFits(LowerIToP(c).value)
  {
    if LowerIToP(c).Some? {
      SixLinesFit(LowerIToP(c).value);
    }
  }

  /** The glyphs 'q' 'r' 's' 't' 'u' 'v' 'w' 'x'. */
  function LowerQToX(c: char): Option<Glyph> {
    match c
    case 'q' => Some(Glyph(3, ["...", ". .", ". .", ". .", "...", "  ."]))
    case 'r' => Some(Glyph(3, ["...", ". .", "...", "..", ". .", ""]))
    case 's' => Some(Glyph(3, ["...", ".", "...", "  .", "...", ""]))
    case 't' => Some(Glyph(3, ["...", " .", " .", " .", " .", ""]))
    case 'u' => Some(Glyph(3, [". .", ". .", ". .", ". .", "...", ""]))
    case 'v' => Some(Glyph(3, [". .", ". .", ". .", ". .", " .", ""]))
    case 'w' => Some(Glyph(5, [".   .", ".   .", ". . .", ". . .", ".....", ""]))
    case 'x' => Some(Glyph(3, [". .", ". .", " .", ". .", ". .", ""]))
    case _ => None
  }

  lemma LowerQToXFit(c: char)
    ensures LowerQToX(c).Some? ==> GlyphFits(LowerQToX(c).value)
  {
    if LowerQToX(c).Some? {
      SixLinesFit(LowerQToX(c).value);
    }
  }

  /** The glyphs 'y' 'z' '1' '2' '3' '4' '5' '6'. */
  function LowerYZAndDigits(c: char): Option<Glyph> {
    match c
    case 'y' => Some(Glyph(3, [". .", ". .", "...", " .", " .", ""]))
    case 'z' => Some(Glyph(3, ["...", "  .", " .", ".", "...", ""]))
    case '1' => Some(Glyph(3, [" .", "..", " .", " .", " .", ""]))
    case '2' => Some(Glyph(3, ["..", "  .", " .", ".", "...", ""]))
    case '3' => Some(Glyph(3, ["..", "  .", " .", "  .", "..", ""]))
    case '4' => Some(Glyph(3, [".", ".", ". .", "...", "  .", ""]))
    case '5' => Some(Glyph(3, ["...", ".", "..", "  .", "..", ""]))
    case '6' => Some(Glyph(3, [" .", ".", "..", ". .", " .", ""]))
    case _ => None
  }

  lemma LowerYZAndDigitsFit(c: char)
    ensures LowerYZAndDigits(c).Some? ==> GlyphFits(LowerYZAndDigits(c).value)
  {
    if LowerYZAndDigits(c).Some? {
      SixLinesFit(LowerYZAndDigits(c).value);
    }
  }

  /** The glyphs '7' '8' '9' '0' ' ' '.' ',' '\''. */
  function DigitsAndMarks(c: char): Option<Glyph> {
    match c
    case '7' => Some(Glyph(3, ["...", "  .", "  .", " .", " .", ""]))
    case '8' => Some(Glyph(3, [" .", ". .", " .", ". .", " .", ""]))
    case '9' => Some(Glyph(3, [" .", ". .", " ..", "  .", " .", ""]))
    case '0' => Some(Glyph(3, [" .", ". .", ". .", ". .", " .", ""]))
    case ' ' => Some(Glyph(2, ["", "", "", "", "", ""]))
    case '.' => Some(Glyph(1, ["", "", "", "", ".", ""]))
    case ',' => Some(Glyph(1, ["", "", "", "", ".", "."]))
    case '\'' => Some(Glyph(1, [".", ".", "", "", "", ""]))
    case _ => None
  }

  lemma DigitsAndMarksFit(c: char)
    ensures DigitsAndMarks(c).Some? ==> GlyphFits(DigitsAndMarks(c).value)
  {
    if DigitsAndMarks(c).Some? {
      SixLinesFit(DigitsAndMarks(c).value);
    }
  }

  /** The glyphs '!' ':' '?' '%' '[' ']' '-' '>'. */
  function Marks(c: char): Option<Glyph> {
    match c
    case '!' => Some(Glyph(1, [".", ".", ".", "", ".", ""]))
    case ':' => Some(Glyph(1, ["", ".", "", ".", "", ""]))
    case '?' => Some(Glyph(3, ["...", "  .", " .", "", " .", "   "]))
    case '%' => Some(Glyph(3, [". .", "  .", " .", ".", ". .", "   "]))
    case '[' => Some(Glyph(2, ["..", ".", ".", ".", "..", ""]))
    case ']' => Some(Glyph(2, ["..", " .", " .", " .", "..", ""]))
    case '-' => Some(Glyph(2, ["", "", "..", "", "", ""]))
    case '>' => Some(Glyph(3, [".", " .", "  .", " .", ".", ""]))
    case _ => None
  }

  lemma MarksFit(c: char)
    ensures Marks(c).Some? ==> GlyphFits(Marks(c).value)
  {
    if Marks(c).Some? {
      SixLinesFit(Marks(c).value);
    }
  }

  /** The glyph table of src/letters.js (lines 1 to 6 of each template); None for a character without a glyph. */
  function GlyphOf(c: char): Option<Glyph> {
    if LowerAToH(c).Some? then LowerAToH(c)
    else if LowerIToP(c).Some? then LowerIToP(c)
    else if LowerQToX(c).Some? then LowerQToX(c)
    else if LowerYZAndDigits(c).Some? then LowerYZAndDigits(c)
    else if DigitsAndMarks(c).Some? then DigitsAndMarks(c)
    else if Marks(c).Some? then Marks(c)
    else None
  }

  /** Every glyph of the table fits its width. */
  lemma TableWellFormed()
    ensures forall c :: GlyphOf(c).Some? ==> GlyphFits(GlyphOf(c).value)
  {
    forall c | GlyphOf(c).Some?
      ensures GlyphFits(GlyphOf(c).value)
    {
      LowerAToHFit(c);
      LowerIToPFit(c);
      LowerQToXFit(c);
      LowerYZAndDigitsFit(c);
      DigitsAndMarksFit(c);
      MarksFit(c);
    }
  }

  /** The glyph numbers the game uses, keyed by character. */
  function LetterNumber(c: char): Option<nat> {
    match GlyphOf(c)
    case None => None
    case Some(g) => Some(LetterOfLines(g.width, g.lines))
  }

  /** Every glyph number is positive (truthy) and has 6 * width + 1 binary digits. */
  lemma LettersShape(c: char)
    requires GlyphOf(c).Some?
    ensures LetterNumber(c).Some? && LetterNumber(c).value >= 1
    ensures BinaryLength(LetterNumber(c).value) == LetterHeight * GlyphOf(c).value.width + 1
  {
    TableWellFormed();
    LetterOfLinesBits(GlyphOf(c).value.width, GlyphOf(c).value.lines);
  }

  function Pow2(k: nat): (p: nat)
    ensures p >= 1
  {
    if k == 0 then 1 else 2 * Pow2(k - 1)
  }

  lemma {:induction false} BelowPow2(n: nat, k: nat)
    requires BinaryLength(n) <= k
    ensures n < Pow2(k)
    decreases k
  {
    if n >= 2 {
      BelowPow2(n / 2, k - 1);
    }
  }

  /**
   * Every glyph number has at most 31 binary digits, so it is a positive
   * 32-bit integer and the 32-bit `pixels & (1 << index)` of drawLetter,
   * for index < 30, tests exactly the bit Bit(pixels, index).
   */
  lemma GlyphNumberFitsInt32(c: char)
    requires GlyphOf(c).Some?
    ensures 1 <= LetterNumber(c).value < Pow2(31)
    ensures LetterHeight * GlyphOf(c).value.width <= 30
  {
    LettersShape(c);
    TableWellFormed();
    BelowPow2(LetterNumber(c).value, 31);
  }

  /** 'i' is one column wide and is the number 95. */
  lemma GlyphOfI()
    ensures GlyphOf('i') == Some(Glyph(1, [".", ".", ".", ".", ".", ""]))
    ensures LetterNumber('i') == Some(95)
  {
    OneLineOfI();
    ReduceReverse(1, "..... ");
    PackOfI();
  }

  /** 'n' is four columns wide. */
  lemma GlyphOfN()
    ensures GlyphOf('n').Some? && GlyphOf('n').value.width == 4
  {
  }

  /** 'm' is five columns wide. */
  lemma GlyphOfM()
    ensures GlyphOf('m').Some? && GlyphOf('m').value.width == 5
  {
  }

  /** 'w' is five columns wide. */
  lemma GlyphOfW()
    ensures GlyphOf('w').Some? && GlyphOf('w').value.width == 5
  {
  }

  lemma OneLineOfI()
    ensures Join(PadLines([".", ".", ".", ".", ".", ""], 1), "") == "..... "
  {
    assert PadEnd("", 1) == " " by {
      assert seq(1, _ => ' ') == " ";
    }
    var padded := PadLines([".", ".", ".", ".", ".", ""], 1);
    assert padded == ["."] + ["."] + ["."] + ["."] + ["."] + [" "];
    JoinDot([" "]);
    JoinDot(["."] + [" "]);
    JoinDot(["."] + ["."] + [" "]);
    JoinDot(["."] + ["."] + ["."] + [" "]);
    JoinDot(["."] + ["."] + ["."] + ["."] + [" "]);
  }

  lemma JoinDot(rest: seq<string>)
    requires rest != []
    ensures Join(["."] + rest, "") == "." + Join(rest, "")
  {
    assert (["."] + rest)[1..] == rest;
  }

  lemma PackOfI()
    ensures PackFrom(1, "..... ") == 95
  {
    assert PackFrom(1, " ") == 2;
    assert PackFrom(1, ". ") == 5;
    assert PackFrom(1, ".. ") == 11;
    assert PackFrom(1, "... ") == 23;
    assert PackFrom(1, ".... ") == 47;
  }
}
