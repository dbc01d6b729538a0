/**
 * The colour tables and the pixel write (src/colors.ts). The `darker` and
 * `channels` tables are computed at build time by src/colorUtils.js; here
 * they are literal tables with lemmas tying them to that computation.
 */
module Colors {
  import opened Wrappers
  import ColorUtils

  const Black := "#000"
  const White := "#fff"
  const Meadow := "#0f7"
  const Forest := "#282"
  const Mountains := "#853"
  const Desert := "#ed0"
  const Sea := "#d6eaf8"

  /** A byte of a Uint8ClampedArray. */
  newtype byte = b: int | 0 <= b < 256

  const Darker: map<string, string> := map[Meadow := "#084", Forest := "#141", Mountains := "#432", Desert := "#770"]

  /** The colours putColor accepts, with their channels. */
  const Channels: map<string, seq<int>> := map[Black := [0, 0, 0]]

  /** Each darker entry is darken applied to its terrain colour. */
  lemma DarkerIsDarken()
    ensures Darker.Keys == {Meadow, Forest, Mountains, Desert}
    ensures Darker[Meadow] == ColorUtils.Darken(Meadow).value
    ensures Darker[Forest] == ColorUtils.Darken(Forest).value
    ensures Darker[Mountains] == ColorUtils.Darken(Mountains).value
    ensures Darker[Desert] == ColorUtils.Darken(Desert).value
  {
    TerrainColoursDistinct();
    assert Darker[Meadow] == "#084" && Darker[Forest] == "#141" && Darker[Mountains] == "#432" && Darker[Desert] == "#770";
    ColorUtils.DarkenMeadow();
    ColorUtils.DarkenForest();
    ColorUtils.DarkenMountains();
    ColorUtils.DarkenDesert();
  }

  /** The four terrain colours differ in their first digit. */
  lemma TerrainColoursDistinct()
    ensures Meadow != Forest && Meadow != Mountains && Meadow != Desert
    ensures Forest != Mountains && Forest != Desert && Mountains != Desert
  {
    assert Meadow[1] == '0' && Forest[1] == '2' && Mountains[1] == '8' && Desert[1] == 'e';
  }

  /** channels['#000'] is mapToChannels('#000'): three zeros. */
  lemma ChannelsIsMapToChannels()
    ensures Channels.Keys == {Black}
    ensures ColorUtils.MapToChannels(Black) == Success([Some(0), Some(0), Some(0)])
    ensures Channels[Black] == [0, 0, 0]
  {
    ColorUtils.ShortChannels(Black);
  }

  /** A Uint8ClampedArray store: the value clamped into 0..255. */
  function ClampByte(v: int): (b: byte)
    ensures 0 <= v < 256 ==> b as int == v
  {
    if v < 0 then 0 else if v > 255 then 255 else v as byte
  }

  /** The four bytes putColor stores: r, g, b and full opacity. */
  function Rgba(rgb: seq<int>, k: nat): byte
    requires |rgb| == 3 && k < 4
  {
    if k < 3 then ClampByte(rgb[k]) else 255
  }

  /**
   * The buffer after putColor: the four entries from `index` hold the colour
   * and 255; stores outside the buffer are dropped, as typed arrays do, and
   * no other entry changes.
   */
  function PutColorSpec(data: seq<byte>, index: int, rgb: seq<int>): (r: seq<byte>)
    requires |rgb| == 3
    ensures |r| == |data|
    ensures forall k :: 0 <= k < |data| && !(index <= k < index + 4) ==> r[k] == data[k]
    ensures forall k :: 0 <= k < |data| && index <= k < index + 3 && 0 <= rgb[k - index] < 256 ==>
      r[k] as int == rgb[k - index]
    ensures 0 <= index + 3 < |data| ==> r[index + 3] == 255
  {
    var r := seq(|data|, k requires 0 <= k < |data| => if index <= k < index + 4 then Rgba(rgb, k - index) else data[k]);
    assert forall k :: 0 <= k < |data| && index <= k < index + 4 ==> r[k] == Rgba(rgb, k - index);
    r
  }

  method PutColor(data: array<byte>, index: int, color: string)
    requires color in Channels
    modifies data
    ensures data[..] == PutColorSpec(old(data[..]), index, Channels[color])
  {
    var rgb := Channels[color];
    ghost var before := data[..];
    if 0 <= index < data.Length {
      data[index] := ClampByte(rgb[0]);
    }
    if 0 <= index + 1 < data.Length {
      data[index + 1] := ClampByte(rgb[1]);
    }
    if 0 <= index + 2 < data.Length {
      data[index + 2] := ClampByte(rgb[2]);
    }
    if 0 <= index + 3 < data.Length {
      data[index + 3] := 255;
    }
    assert data[..] == PutColorSpec(before, index, rgb);
  }
}
