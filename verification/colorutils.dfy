/**
 * Build-time colour helpers (src/colorUtils.js): `#rgb` / `#rrggbb` strings
 * split into channels, halved, and written back as hex. A channel is read
 * with `parseInt(…, 16)`, which skips leading blanks, takes a sign, drops a
 * `0x` prefix and reads the longest run of hex digits after it, giving NaN
 * when there is none; NaN is `None` here and prints as "NaN", as in
 * JavaScript.
 */
module ColorUtils {
  import opened Wrappers
  import JsBuiltins

  const UnknownTransformPrefix := "Unknown color transform: "
  /** The TypeError raised when a colour has no slice table (length other than 4 or 7). */
  const NoSlicesForLength := "Cannot read properties of undefined (reading 'map')"

  const DarkenFactor: real := 0.5

  // -----------------------------------------------------------------------
  // Hex digits.

  function HexDigitValue(c: char): (v: Option<nat>)
    ensures v.Some? ==> v.value < 16
  {
    if '0' <= c <= '9' then Some(c as int - '0' as int)
    else if 'a' <= c <= 'f' then Some(c as int - 'a' as int + 10)
    else if 'A' <= c <= 'F' then Some(c as int - 'A' as int + 10)
    else None
  }

  /** Number.prototype.toString(16) of a single digit: lower case. */
  function HexDigit(d: nat): (c: char)
    requires d < 16
    ensures HexDigitValue(c) == Some(d)
  {
    if d < 10 then ('0' as int + d) as char else ('a' as int + d - 10) as char
  }

  /** The digits after the first: read while they are hex digits. */
  function HexPrefix(s: string, acc: nat): nat
    decreases |s|
  {
    if s == [] || HexDigitValue(s[0]).None? then acc
    else HexPrefix(s[1..], acc * 16 + HexDigitValue(s[0]).value)
  }

  /** The characters parseInt skips first: JavaScript's white space and line terminators. */
  predicate IsBlank(c: char) {
    || c in {' ', '\t', '\n', '\r', '\U{B}', '\U{C}', '\U{A0}', '\U{1680}', '\U{2028}', '\U{2029}', '\U{202F}',
             '\U{205F}', '\U{3000}', '\U{FEFF}'}
    || '\U{2000}' <= c <= '\U{200A}'
  }

  /** The string without its leading blanks. */
  function TrimStart(s: string): (t: string)
    ensures t != [] ==> !IsBlank(t[0])
    decreases |s|
  {
    if s != [] && IsBlank(s[0]) then TrimStart(s[1..]) else s
  }

  /**
   * parseInt(s, 16): leading blanks are skipped, then the rest is read as a
   * signed number.
   */
  function ParseHex(s: string): Option<int> {
    ParseSigned(TrimStart(s))
  }

  /** One '+' or '-' is taken; a '-' negates the value ("-0" is JavaScript's -0, which is 0 here). */
  function ParseSigned(t: string): Option<int> {
    if t != [] && t[0] == '-' then
      var u := ParseUnsigned(t[1..]);
      if u.None? then None else Some(-(u.value as int))
    else if t != [] && t[0] == '+' then
      var u := ParseUnsigned(t[1..]);
      if u.None? then None else Some(u.value as int)
    else
      var u := ParseUnsigned(t);
      if u.None? then None else Some(u.value as int)
  }

  /** A "0x" or "0X" is dropped (radix 16 allows it), then the digits are read. */
  function ParseUnsigned(u: string): Option<nat> {
    if |u| >= 2 && u[0] == '0' && (u[1] == 'x' || u[1] == 'X') then ReadDigits(u[2..]) else ReadDigits(u)
  }

  /** The longest run of hex digits at the start; none is NaN. */
  function ReadDigits(v: string): Option<nat> {
    if v == [] || HexDigitValue(v[0]).None? then None
    else Some(HexPrefix(v[1..], HexDigitValue(v[0]).value))
  }

  /** A one-character slice reads as its digit, and as NaN when it is not one. */
  lemma ParseOneCharacter(a: char)
    ensures ParseHex([a]) == if HexDigitValue(a).Some? then Some(HexDigitValue(a).value as int) else None
  {
    if IsBlank(a) {
      assert [a][1..] == [];
      assert TrimStart([a]) == [];
      assert ParseSigned([]) == None;
    } else {
      assert TrimStart([a]) == [a];
      if a == '-' || a == '+' {
        assert [a][1..] == [];
        assert ParseSigned([a]) == None;
      } else {
        assert ParseSigned([a]) == if ReadDigits([a]).None? then None else Some(ReadDigits([a]).value as int);
      }
    }
  }

  /**
   * What a two-character slice reads as, case by case: two digits; a digit
   * followed by something else (but "0x" and "0X" are a bare prefix, so
   * NaN); a blank or '+' then a digit; '-' then a digit, negated; and NaN
   * for everything else.
   */
  lemma ParseTwoCharacters(a: char, b: char)
    ensures var va, vb := HexDigitValue(a), HexDigitValue(b);
      ParseHex([a, b]) ==
        if va.Some? && vb.Some? then Some(16 * va.value + vb.value)
        else if va.Some? && a == '0' && (b == 'x' || b == 'X') then None
        else if va.Some? then Some(va.value as int)
        else if (IsBlank(a) || a == '+') && vb.Some? then Some(vb.value as int)
        else if a == '-' && vb.Some? then Some(-(vb.value as int))
        else None
  {
    if IsBlank(a) {
      ParseBlankFirst(a, b);
      ParseOneCharacter(b);
    } else if a == '-' || a == '+' {
      ParseSignFirst(a, b);
    } else {
      ParseDigitFirst(a, b);
    }
  }

  lemma ParseBlankFirst(a: char, b: char)
    requires IsBlank(a)
    ensures HexDigitValue(a).None? && ParseHex([a, b]) == ParseHex([b])
  {
    assert [a, b][1..] == [b];
  }

  lemma ParseSignFirst(a: char, b: char)
    requires a == '-' || a == '+'
    ensures var vb := HexDigitValue(b);
      ParseHex([a, b]) == if vb.None? then None else if a == '-' then Some(-(vb.value as int)) else Some(vb.value as int)
  {
    var s := [a, b];
    assert s[1..] == [b] && [b][1..] == [];
    assert TrimStart(s) == s;
    assert ParseUnsigned([b]) == ReadDigits([b]);
    assert ParseHex(s) == ParseSigned(s);
  }

  lemma ParseDigitFirst(a: char, b: char)
    requires !IsBlank(a) && a != '-' && a != '+'
    ensures var va, vb := HexDigitValue(a), HexDigitValue(b);
      ParseHex([a, b]) ==
        if va.None? then None
        else if a == '0' && (b == 'x' || b == 'X') then None
        else if vb.Some? then Some(16 * va.value + vb.value)
        else Some(va.value as int)
  {
    var s := [a, b];
    assert s[1..] == [b] && [b][1..] == [] && s[2..] == [];
    assert TrimStart(s) == s;
    assert ParseHex(s) == ParseSigned(s);
    assert ParseSigned(s) == if ParseUnsigned(s).None? then None else Some(ParseUnsigned(s).value as int);
    if a == '0' && (b == 'x' || b == 'X') {
      assert ParseUnsigned(s) == ReadDigits([]);
    } else {
      assert ParseUnsigned(s) == ReadDigits(s);
      if HexDigitValue(a).Some? {
        var va := HexDigitValue(a).value;
        assert ReadDigits(s) == Some(HexPrefix([b], va));
        if HexDigitValue(b).Some? {
          assert HexPrefix([b], va) == HexPrefix([], va * 16 + HexDigitValue(b).value);
        }
      }
    }
  }

  /** Number.prototype.toString(16) of a natural number. */
  function HexString(n: nat): (s: string)
    ensures |s| >= 1
    decreases n
  {
    if n < 16 then [HexDigit(n)] else HexString(n / 16) + [HexDigit(n % 16)]
  }

  /** String.prototype.padStart(target, '0'). */
  function PadStart(s: string, target: int): (r: string)
    ensures |s| >= target ==> r == s
    ensures |s| < target ==> |r| == target && r[target - |s|..] == s
    decreases target - |s|
  {
    if |s| >= target then s else PadStart("0" + s, target)
  }

  // -----------------------------------------------------------------------
  // The transforms.

  /** slicesByLength[color.length], parsed base 16. */
  function MapToChannels(color: string): (r: Result<seq<Option<int>>, string>)
    ensures r.Success? <==> |color| == 4 || |color| == 7
    ensures r.Success? ==> |r.value| == 3
  {
    if |color| == 4 then Success([ParseHex(color[1..2]), ParseHex(color[2..3]), ParseHex(color[3..4])])
    else if |color| == 7 then Success([ParseHex(color[1..3]), ParseHex(color[3..5]), ParseHex(color[5..7])])
    else Failure(NoSlicesForLength)
  }

  function DarkenChannel(channel: Option<int>): Option<real> {
    if channel.None? then None else Some(channel.value as real * DarkenFactor)
  }

  function ClampByLength(color: string): nat {
    if |color| == 4 then 0xf else 0xff
  }

  /**
   * sliceLengthByLength[color]: the table is looked up with the colour string
   * itself, not its length, so only the strings "4" and "7" would find a
   * padding width.
   */
  function SliceLengthByKey(color: string): int {
    if color == "4" then 1 else if color == "7" then 2 else 0
  }

  /** Math.max(0, Math.min(limit, v)). */
  function Clamp(v: int, limit: nat): (n: nat)
    ensures n <= limit
    ensures 0 <= v <= limit ==> n == v
  {
    if v > limit then limit else if v < 0 then 0 else v
  }

  /** mapToHex(color)(channel): round, clamp, hex, and pad as written. */
  function MapToHex(color: string, channel: Option<real>): string {
    if channel.None? then "NaN"
    else
      PadStart(HexString(Clamp(JsBuiltins.Round(channel.value), ClampByLength(color))), SliceLengthByKey(color))
  }

  function Darken(color: string): (r: Result<string, string>)
    ensures r.Success? <==> |color| == 4 || |color| == 7
  {
    var channels := MapToChannels(color);
    if channels.Failure? then Failure(channels.error)
    else
      var c := channels.value;
      Success("#" + MapToHex(color, DarkenChannel(c[0])) + MapToHex(color, DarkenChannel(c[1]))
                  + MapToHex(color, DarkenChannel(c[2])))
  }

  datatype TransformResult = Darkened(color: string) | Channels(channels: seq<Option<int>>)

  /** transform(type, color): dispatch by name; any other name throws. */
  function Transform(name: string, color: string): (r: Result<TransformResult, string>)
    ensures name != "darken" && name != "mapToChannels" ==> r == Failure(UnknownTransformPrefix + name)
    ensures name == "darken" ==> r.Success? == Darken(color).Success?
    ensures name == "mapToChannels" ==> r.Success? == MapToChannels(color).Success?
  {
    if name == "darken" then
      var d := Darken(color);
      if d.Failure? then Failure(d.error) else Success(Darkened(d.value))
    else if name == "mapToChannels" then
      var c := MapToChannels(color);
      if c.Failure? then Failure(c.error) else Success(Channels(c.value))
    else Failure(UnknownTransformPrefix + name)
  }

  // -----------------------------------------------------------------------
  // Properties.

  /** One character reads as 0 to 15; two read as -15 to 255, negative only after a '-'. */
  lemma ParseHexBound(s: string)
    requires |s| == 1 || |s| == 2
    ensures ParseHex(s).Some? && |s| == 1 ==> 0 <= ParseHex(s).value <= 0xf
    ensures ParseHex(s).Some? && |s| == 2 ==> -0xf <= ParseHex(s).value <= 0xff
    ensures ParseHex(s).Some? && ParseHex(s).value < 0 ==> s[0] == '-'
  {
    if |s| == 1 {
      ParseOneCharacter(s[0]);
      assert s == [s[0]];
    } else {
      ParseTwoCharacters(s[0], s[1]);
      assert s == [s[0], s[1]];
    }
  }

  /**
   * The channels mapToChannels reads: 0 to 15 for a `#rgb` colour, and -15
   * to 255 for a `#rrggbb` one, where a slice such as "-f" reads as a
   * negative number.
   */
  lemma ChannelRanges(color: string)
    requires |color| == 4 || |color| == 7
    ensures forall i :: 0 <= i < 3 && MapToChannels(color).value[i].Some? ==>
      && MapToChannels(color).value[i].value <= ClampByLength(color)
      && (|color| == 4 ==> 0 <= MapToChannels(color).value[i].value)
      && (|color| == 7 ==> -0xf <= MapToChannels(color).value[i].value)
  {
    if |color| == 4 {
      ParseHexBound(color[1..2]);
      ParseHexBound(color[2..3]);
      ParseHexBound(color[3..4]);
    } else {
      ParseHexBound(color[1..3]);
      ParseHexBound(color[3..5]);
      ParseHexBound(color[5..7]);
    }
  }

  /**
   * The channel darken writes, clamped: halved and rounded half up. A
   * channel read as negative halves to at most 0 and is clamped to 0.
   */
  function DarkenedValue(channel: int, limit: nat): (n: nat)
    ensures n <= limit
    ensures 0 <= channel <= limit ==> n == (channel + 1) / 2
    ensures channel < 0 ==> n == 0
  {
    Clamp(JsBuiltins.Round(channel as real * DarkenFactor), limit)
  }

  /** For well-formed colours the padding width looked up is always 0: nothing is ever padded. */
  lemma NeverPadded(color: string)
    requires |color| == 4 || |color| == 7
    ensures SliceLengthByKey(color) == 0
  {
  }

  /**
   * Darkening a channel that was read never makes it larger, except for a
   * negative channel, which comes out as 0.
   */
  lemma DarkenChannelOrder(color: string, i: nat)
    requires |color| == 4 || |color| == 7
    requires i < 3 && MapToChannels(color).value[i].Some?
    ensures var c := MapToChannels(color).value[i].value;
      DarkenedValue(c, ClampByLength(color)) <= c <==> 0 <= c
  {
    ChannelRanges(color);
  }

  /**
   * darken writes each read channel as (c + 1) / 2 in unpadded hex, and
   * an unreadable one as NaN.
   */
  lemma DarkenChannels(color: string)
    requires |color| == 4 || |color| == 7
    ensures Darken(color).value == "#" + DarkHex(MapToChannels(color).value[0])
      + DarkHex(MapToChannels(color).value[1]) + DarkHex(MapToChannels(color).value[2])
  {
    ChannelRanges(color);
    var c := MapToChannels(color).value;
    DarkHexMeaning(color, c[0]);
    DarkHexMeaning(color, c[1]);
    DarkHexMeaning(color, c[2]);
  }

  lemma DarkHexMeaning(color: string, channel: Option<int>)
    requires |color| == 4 || |color| == 7
    requires channel.Some? ==> channel.value <= ClampByLength(color)
    ensures MapToHex(color, DarkenChannel(channel)) == DarkHex(channel)
  {
    if channel.Some? {
      var d := DarkenedValue(channel.value, ClampByLength(color));
      assert MapToHex(color, DarkenChannel(channel)) == PadStart(HexString(d), 0);
      assert HexString(0) == "0";
    }
  }

  /** The text darken writes for one channel, by its meaning. */
  function DarkHex(channel: Option<int>): string {
    if channel.None? then "NaN" else if channel.value < 0 then "0" else HexString((channel.value + 1) / 2)
  }

  /** What parseInt(c, 16) gives for one character. */
  function Digit(c: char): Option<int> {
    if HexDigitValue(c).None? then None else Some(HexDigitValue(c).value as int)
  }

  /** A `#rgb` colour's channels are its three characters, each read as a digit or NaN. */
  lemma ShortChannels(color: string)
    requires |color| == 4
    ensures MapToChannels(color) == Success([Digit(color[1]), Digit(color[2]), Digit(color[3])])
  {
    assert color[1..2] == [color[1]] && color[2..3] == [color[2]] && color[3..4] == [color[3]];
    ParseOneCharacter(color[1]);
    ParseOneCharacter(color[2]);
    ParseOneCharacter(color[3]);
  }

  /** A `#rrggbb` colour's channels are its three pairs of characters, read as parseInt reads them. */
  lemma LongChannels(color: string)
    requires |color| == 7
    ensures MapToChannels(color) ==
      Success([ParseHex([color[1], color[2]]), ParseHex([color[3], color[4]]), ParseHex([color[5], color[6]])])
  {
    assert color[1..3] == [color[1], color[2]] && color[3..5] == [color[3], color[4]];
    assert color[5..7] == [color[5], color[6]];
  }

  /** darken of a colour whose channels are known. */
  lemma DarkenOf(color: string, c0: Option<int>, c1: Option<int>, c2: Option<int>)
    requires |color| == 4 || |color| == 7
    requires MapToChannels(color) == Success([c0, c1, c2])
    ensures Darken(color) == Success("#" + DarkHex(c0) + DarkHex(c1) + DarkHex(c2))
  {
    DarkenChannels(color);
  }

  /** The four terrain colours the game darkens: meadow, mountains, forest and desert. */
  lemma DarkenMeadow()
    ensures Darken("#0f7") == Success("#084")
  {
    ShortChannels("#0f7");
    DarkenOf("#0f7", Some(0), Some(15), Some(7));
    assert DarkHex(Some(0)) == "0" && DarkHex(Some(15)) == "8" && DarkHex(Some(7)) == "4";
    assert "#" + "0" + "8" + "4" == "#084";
  }

  lemma DarkenMountains()
    ensures Darken("#853") == Success("#432")
  {
    ShortChannels("#853");
    DarkenOf("#853", Some(8), Some(5), Some(3));
    assert DarkHex(Some(8)) == "4" && DarkHex(Some(5)) == "3" && DarkHex(Some(3)) == "2";
    assert "#" + "4" + "3" + "2" == "#432";
  }

  lemma DarkenForest()
    ensures Darken("#282") == Success("#141")
  {
    ShortChannels("#282");
    DarkenOf("#282", Some(2), Some(8), Some(2));
    assert DarkHex(Some(2)) == "1" && DarkHex(Some(8)) == "4";
    assert "#" + "1" + "4" + "1" == "#141";
  }

  lemma DarkenDesert()
    ensures Darken("#ed0") == Success("#770")
  {
    ShortChannels("#ed0");
    DarkenOf("#ed0", Some(14), Some(13), Some(0));
    assert DarkHex(Some(14)) == "7" && DarkHex(Some(13)) == "7" && DarkHex(Some(0)) == "0";
    assert "#" + "7" + "7" + "0" == "#770";
  }

  /** A character that is not a hex digit reads as NaN and prints as "NaN". */
  lemma NotHexIsNaN()
    ensures Darken("#g00") == Success("#NaN00")
  {
    ShortChannels("#g00");
    DarkenOf("#g00", None, Some(0), Some(0));
    assert DarkHex(None) == "NaN" && DarkHex(Some(0)) == "0";
    assert "#" + "NaN" + "0" + "0" == "#NaN00";
  }

  /** A slice "0x" is a bare prefix with no digits after it, so it reads as NaN. */
  lemma HexPrefixIsNaN()
    ensures Darken("#0x1234") == Success("#NaN91a")
  {
    PrefixChannels();
    DarkenOf("#0x1234", None, Some(18), Some(52));
    PrefixDarkHex();
    assert "#" + "NaN" + "9" + "1a" == "#NaN91a";
  }

  lemma PrefixDarkHex()
    ensures DarkHex(None) == "NaN" && DarkHex(Some(18)) == "9" && DarkHex(Some(52)) == "1a"
  {
    assert HexString(26) == HexString(1) + [HexDigit(10)];
  }

  lemma PrefixChannels()
    ensures MapToChannels("#0x1234") == Success([None, Some(18), Some(52)])
  {
    LongChannels("#0x1234");
    ParseTwoCharacters('0', 'x');
    ParseTwoCharacters('1', '2');
    ParseTwoCharacters('3', '4');
  }

  lemma SignedChannels()
    ensures MapToChannels("#-f0000") == Success([Some(-15), Some(0), Some(0)])
  {
    LongChannels("#-f0000");
    ParseTwoCharacters('-', 'f');
    ParseTwoCharacters('0', '0');
  }

  /** A slice "-f" reads as -15, which darkens to 0 and is written as "0". */
  lemma SignedChannel()
    ensures MapToChannels("#-f0000") == Success([Some(-15), Some(0), Some(0)])
    ensures Darken("#-f0000") == Success("#000")
  {
    SignedChannels();
    DarkenOf("#-f0000", Some(-15), Some(0), Some(0));
    assert DarkHex(Some(-15)) == "0" && DarkHex(Some(0)) == "0";
    assert "#" + "0" + "0" + "0" == "#000";
  }

  // -----------------------------------------------------------------------
  // The padding quirk and its correction.

  /**
   * As written, a six-digit colour whose darkened channels are all below 16
   * loses its zero padding and comes back as a three-digit colour.
   */
  lemma UnpaddedSixDigitColour()
    ensures Darken("#0a0b0c") == Success("#566")
    ensures |Darken("#0a0b0c").value| != |"#0a0b0c"|
  {
    LongChannels("#0a0b0c");
    ParseTwoCharacters('0', 'a');
    ParseTwoCharacters('0', 'b');
    ParseTwoCharacters('0', 'c');
    DarkenOf("#0a0b0c", Some(10), Some(11), Some(12));
    assert DarkHex(Some(10)) == "5" && DarkHex(Some(11)) == "6" && DarkHex(Some(12)) == "6";
    assert "#" + "5" + "6" + "6" == "#566";
  }

  /** sliceLengthByLength looked up by the colour's length, as evidently meant. */
  function SliceLength(color: string): int {
    if |color| == 4 then 1 else if |color| == 7 then 2 else 0
  }

  function MapToHexPadded(color: string, channel: Option<real>): string {
    if channel.None? then "NaN"
    else
      PadStart(HexString(Clamp(JsBuiltins.Round(channel.value), ClampByLength(color))), SliceLength(color))
  }

  /** darken with the padding width taken from the colour's length. */
  function DarkenPadded(color: string): (r: Result<string, string>)
    ensures r.Success? <==> |color| == 4 || |color| == 7
  {
    var channels := MapToChannels(color);
    if channels.Failure? then Failure(channels.error)
    else
      var c := channels.value;
      Success("#" + MapToHexPadded(color, DarkenChannel(c[0])) + MapToHexPadded(color, DarkenChannel(c[1]))
                  + MapToHexPadded(color, DarkenChannel(c[2])))
  }

  /** A value that fits the slice width prints as exactly that many lower-case digits. */
  lemma PaddedDigits(n: nat, width: nat)
    requires width == 1 || width == 2
    requires width == 1 ==> n < 16
    requires width == 2 ==> n < 256
    ensures width == 1 ==> PadStart(HexString(n), width) == [HexDigit(n)]
    ensures width == 2 ==> PadStart(HexString(n), width) == [HexDigit(n / 16), HexDigit(n % 16)]
  {
    if width == 2 && n < 16 {
      assert PadStart(HexString(n), 2) == PadStart("0" + [HexDigit(n)], 2);
      assert HexDigit(0) == '0';
    }
  }

  /** One or two hex digits read back as the number they spell. */
  lemma ParseDigits(a: nat, b: nat)
    requires a < 16 && b < 16
    ensures ParseHex([HexDigit(a)]) == Some(a)
    ensures ParseHex([HexDigit(a), HexDigit(b)]) == Some(16 * a + b)
  {
    ParseOneCharacter(HexDigit(a));
    ParseTwoCharacters(HexDigit(a), HexDigit(b));
  }

  /** The corrected text of one darkened channel: exactly `SliceLength` digits that read back. */
  lemma PaddedChannel(color: string, c: int)
    requires |color| == 4 || |color| == 7
    requires c <= ClampByLength(color)
    ensures |MapToHexPadded(color, DarkenChannel(Some(c)))| == SliceLength(color)
    ensures ParseHex(MapToHexPadded(color, DarkenChannel(Some(c)))) == Some(DarkenedValue(c, ClampByLength(color)))
  {
    var d := DarkenedValue(c, ClampByLength(color));
    assert MapToHexPadded(color, DarkenChannel(Some(c))) == PadStart(HexString(d), SliceLength(color));
    PaddedValue(d, SliceLength(color));
  }

  /** A value that fits the slice width prints as exactly that many digits, which read back as the value. */
  lemma PaddedValue(d: nat, width: nat)
    requires width == 1 || width == 2
    requires width == 1 ==> d < 16
    requires width == 2 ==> d < 256
    ensures |PadStart(HexString(d), width)| == width
    ensures ParseHex(PadStart(HexString(d), width)) == Some(d)
  {
    PaddedDigits(d, width);
    if width == 1 {
      ParseDigits(d, 0);
    } else {
      ParseDigits(d / 16, d % 16);
    }
  }

  lemma SliceThree(a: string, b: string, c: string, w: nat)
    requires |a| == w && |b| == w && |c| == w
    ensures |"#" + a + b + c| == 1 + 3 * w
    ensures ("#" + a + b + c)[1..1 + w] == a
    ensures ("#" + a + b + c)[1 + w..1 + 2 * w] == b
    ensures ("#" + a + b + c)[1 + 2 * w..1 + 3 * w] == c
  {
  }

  /**
   * The corrected darken keeps the colour's length and reads back as the
   * darkened channels.
   */
  lemma DarkenPaddedRoundTrip(color: string)
    requires |color| == 4 || |color| == 7
    requires forall i :: 0 <= i < 3 ==> MapToChannels(color).value[i].Some?
    ensures |DarkenPadded(color).value| == |color|
    ensures MapToChannels(DarkenPadded(color).value).Success?
    ensures forall i :: 0 <= i < 3 ==>
      MapToChannels(DarkenPadded(color).value).value[i] ==
        Some(DarkenedValue(MapToChannels(color).value[i].value, ClampByLength(color)))
  {
    ChannelRanges(color);
    var c := MapToChannels(color).value;
    assert c == [Some(c[0].value), Some(c[1].value), Some(c[2].value)];
    PaddedJoin(color, c[0].value, c[1].value, c[2].value);
  }

  /** The corrected darken of three read channels, joined, reads back as the three darkened values. */
  lemma PaddedJoin(color: string, a: int, b: int, c: int)
    requires |color| == 4 || |color| == 7
    requires MapToChannels(color) == Success([Some(a), Some(b), Some(c)])
    requires a <= ClampByLength(color) && b <= ClampByLength(color) && c <= ClampByLength(color)
    ensures DarkenPadded(color).Success? && |DarkenPadded(color).value| == |color|
    ensures MapToChannels(DarkenPadded(color).value) == Success([Some(DarkenedValue(a, ClampByLength(color))),
      Some(DarkenedValue(b, ClampByLength(color))), Some(DarkenedValue(c, ClampByLength(color)))])
  {
    PaddedChannel(color, a);
    PaddedChannel(color, b);
    PaddedChannel(color, c);
    var s0 := MapToHexPadded(color, DarkenChannel(Some(a)));
    var s1 := MapToHexPadded(color, DarkenChannel(Some(b)));
    var s2 := MapToHexPadded(color, DarkenChannel(Some(c)));
    assert DarkenPadded(color) == Success("#" + s0 + s1 + s2);
    ChannelsOfJoined(s0, s1, s2, SliceLength(color));
  }

  /** Three channels of one or two digits each, joined after '#', are sliced back apart. */
  lemma ChannelsOfJoined(a: string, b: string, c: string, w: int)
    requires w == 1 || w == 2
    requires |a| == w && |b| == w && |c| == w
    ensures MapToChannels("#" + a + b + c) == Success([ParseHex(a), ParseHex(b), ParseHex(c)])
  {
    SliceThree(a, b, c, w);
  }
}
