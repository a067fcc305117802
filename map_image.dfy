/**
 * `MapImage`: an image file shown on one map id at a given size, which Bukkit stores in its
 * configuration through `serialize` and rebuilds through `deserialize`. The configuration
 * section is a map from keys to boxed values; Bukkit's `NumberConversions.toInt` reads a
 * number back as its `intValue`, parses any other value's string form, and yields 0 when
 * that fails or the key is missing.
 */
module MapImages {
  import opened Wrappers
  import opened JavaTypes
  import opened JavaFiles

  /** The immutable fields; the library handle is left out. */
  datatype MapImage = MapImage(mapId: int, image: File, height: int, width: int)

  /** `new MapImage(library, map, image, width, height)`: note the order width, height. */
  function NewMapImage(mapId: int, image: File, width: int, height: int): (m: MapImage)
    ensures GetMap(m) == mapId && GetImage(m) == image && GetWidth(m) == width && GetHeight(m) == height
  {
    MapImage(mapId, image, height, width)
  }

  function GetMap(m: MapImage): int { m.mapId }
  function GetImage(m: MapImage): File { m.image }
  function GetHeight(m: MapImage): int { m.height }
  function GetWidth(m: MapImage): int { m.width }

  /** A value in a configuration section: a boxed integer or a string. */
  datatype Value = IntValue(n: int) | StringValue(s: string)

  type Section = map<string, Value>

  /** `serialize`: the map id, the absolute image path, and the two sizes. */
  function Serialize(m: MapImage, userDir: string): (d: Section)
    ensures d.Keys == {"map", "image", "width", "height"}
  {
    map["map" := IntValue(m.mapId), "image" := StringValue(AbsolutePath(m.image, userDir)),
        "width" := IntValue(m.width), "height" := IntValue(m.height)]
  }

  function Lookup(d: Section, key: string): Option<Value>
  {
    if key in d then Some(d[key]) else None
  }

  predicate IsDigit(c: char)
  {
    '0' <= c <= '9'
  }

  function DigitsValue(s: string): nat
    requires forall i :: 0 <= i < |s| ==> IsDigit(s[i])
  {
    if |s| == 0 then 0
    else
      var last := s[|s| - 1];
      assert IsDigit(last);
      10 * DigitsValue(s[..|s| - 1]) + (last as int - '0' as int)
  }

  /** `Integer.parseInt(s)`: an optional sign, at least one digit, and a value that fits an `int`. */
  function ParseInt(s: string): (r: Option<int>)
    ensures r.Some? ==> IsInt32(r.value)
    ensures |s| == 0 ==> r.None?
  {
    var negative := |s| > 0 && s[0] == '-';
    var digits := if |s| > 0 && (s[0] == '-' || s[0] == '+') then s[1..] else s;
    if |digits| == 0 || exists i :: 0 <= i < |digits| && !IsDigit(digits[i]) then None
    else
      var magnitude: int := DigitsValue(digits);
      var v := if negative then -magnitude else magnitude;
      if IsInt32(v) then Some(v) else None
  }

  function NatString(n: nat): (s: string)
    ensures |s| > 0 && forall i :: 0 <= i < |s| ==> IsDigit(s[i])
  {
    if n < 10 then [('0' as int + n) as char]
    else NatString(n / 10) + [('0' as int + n % 10) as char]
  }

  /** `Integer.toString`, which `String.valueOf` uses for a boxed integer. */
  function DecimalString(n: int): string
  {
    if n < 0 then "-" + NatString(-n) else NatString(n)
  }

  lemma {:induction false} NatStringValue(n: nat)
    ensures DigitsValue(NatString(n)) == n
    decreases n
  {
    if n >= 10 {
      NatStringValue(n / 10);
      var s := NatString(n);
      assert s[..|s| - 1] == NatString(n / 10);
    }
  }

  /** Parsing the decimal form of an `int` gives it back. */
  lemma ParseDecimal(n: int)
    requires IsInt32(n)
    ensures ParseInt(DecimalString(n)) == Some(n)
  {
    var s := DecimalString(n);
    if n < 0 {
      NatStringValue(-n);
      assert s[1..] == NatString(-n);
    } else {
      NatStringValue(n);
      assert s[0] != '-' && s[0] != '+';
    }
  }

  /** `NumberConversions.toInt`. */
  function ToInt(v: Option<Value>): (i: int)
    ensures IsInt32(i)
    ensures v == None ==> i == 0
  {
    match v
    case None => 0
    case Some(IntValue(n)) => WrapInt32(n)
    case Some(StringValue(s)) => (match ParseInt(s) case Some(k) => k case None => 0)
  }

  /** `String.valueOf(Object)`: `"null"` for a missing key. */
  function ValueOf(v: Option<Value>): string
  {
    match v
    case None => "null"
    case Some(IntValue(n)) => DecimalString(n)
    case Some(StringValue(s)) => s
  }

  /** `deserialize`: each field read back from its key. */
  function Deserialize(d: Section): MapImage
  {
    NewMapImage(ToInt(Lookup(d, "map")), NewFile(ValueOf(Lookup(d, "image"))),
                ToInt(Lookup(d, "width")), ToInt(Lookup(d, "height")))
  }

  /** The `int` fields a Java `MapImage` can hold. */
  predicate JavaFields(m: MapImage)
  {
    IsInt32(m.mapId) && IsInt32(m.width) && IsInt32(m.height) && Normalized(m.image.path)
  }

  /**
   * Storing a map image and reading it back keeps the map id and both sizes, and the image
   * becomes the file at its absolute path, which names the same absolute path again.
   */
  lemma DeserializeSerialize(m: MapImage, userDir: string)
    requires JavaFields(m) && WorkingDirectory(userDir)
    ensures var back := Deserialize(Serialize(m, userDir));
      back == m.(image := File(AbsolutePath(m.image, userDir))) &&
      AbsolutePath(back.image, userDir) == AbsolutePath(m.image, userDir)
  {
    AbsolutePathStable(m.image, userDir);
  }

  /** An image given by an absolute path comes back unchanged. */
  lemma DeserializeSerializeAbsolute(m: MapImage, userDir: string)
    requires JavaFields(m) && WorkingDirectory(userDir) && IsAbsolute(m.image)
    ensures Deserialize(Serialize(m, userDir)) == m
  {
    DeserializeSerialize(m, userDir);
  }

  /** A section with no keys yields map 0 at size 0 x 0 and the file `null`. */
  lemma DeserializeEmpty()
    ensures Deserialize(map[]) == MapImage(0, File("null"), 0, 0)
  {
    assert Normalized("null");
  }

  /** `MapImage.Builder`: fields start at 0 and a null image. */
  class Builder {
    var mapId: int
    var image: Option<File>
    var height: int
    var width: int

    constructor()
      ensures mapId == 0 && image == None && height == 0 && width == 0
    {
      mapId, image, height, width := 0, None, 0, 0;
    }

    method SetMap(mapId: int) returns (b: Builder)
      modifies this
      ensures b == this && this.mapId == mapId
      ensures image == old(image) && height == old(height) && width == old(width)
    {
      this.mapId := mapId;
      return this;
    }

    method SetImage(image: Option<File>) returns (b: Builder)
      modifies this
      ensures b == this && this.image == image
      ensures mapId == old(mapId) && height == old(height) && width == old(width)
    {
      this.image := image;
      return this;
    }

    method SetHeight(height: int) returns (b: Builder)
      modifies this
      ensures b == this && this.height == height
      ensures mapId == old(mapId) && image == old(image) && width == old(width)
    {
      this.height := height;
      return this;
    }

    method SetWidth(width: int) returns (b: Builder)
      modifies this
      ensures b == this && this.width == width
      ensures mapId == old(mapId) && image == old(image) && height == old(height)
    {
      this.width := width;
      return this;
    }

    /**
     * `createImageMap`: the builder's values, in the constructor's order. Without an image the
     * constructor's log line dereferences null, so nothing is built.
     */
    method CreateImageMap() returns (r: Option<MapImage>)
      ensures image.None? <==> r.None?
      ensures r.Some? ==> (GetMap(r.value) == mapId && GetImage(r.value) == image.value &&
        GetWidth(r.value) == width && GetHeight(r.value) == height)
    {
      if image.None? {
        return None;
      }
      return Some(NewMapImage(mapId, image.value, width, height));
    }
  }
}
