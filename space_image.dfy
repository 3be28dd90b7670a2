/** The space image format of 8/space_image_format.py: an image is a string
    of pixel digits cut into layers of width * height pixels; the checksum
    looks at the layer with the fewest '0' pixels, and decoding takes each
    pixel from the first layer where it is not '2' (transparent). */
module SpaceImage {
  import opened Wrappers
  import Arithmetic

  const Width := 25
  const Height := 6
  const Transparent := '2'

  datatype Error =
    | ZeroDivision      // a layer size of 0 in `len(img) // (width * height)`
    | NoLayers          // `min` of an empty list of layer counts
    | NotADigit(c: char) // `int` of a pixel that is not a decimal digit

  /** `iter_layer(img, width, height)` as a list: `len(img) // (width *
      height)` slices of width * height characters, back to back. A
      negative size gives an empty range, and a size of 0 divides by zero. */
  function Layers(img: string, width: int, height: int): (r: Result<seq<string>, Error>)
    ensures r.Err? <==> width * height == 0
    ensures r.Ok? && width * height < 0 ==> r.value == []
    ensures r.Ok? && width * height > 0 ==>
      var size := width * height;
      && |r.value| == |img| / size
      && forall n :: 0 <= n < |r.value| ==> r.value[n] == Slice(img, size, n)
  {
    var size := width * height;
    if size == 0 then Err(ZeroDivision)
    else if size < 0 then Ok([])
    else
      var count := |img| / size;
      Ok(seq(count, n requires 0 <= n < count => Slice(img, size, n)))
  }

  /** Layer n of an image cut into layers of `size` characters: the
      `size` characters from offset n * size on. */
  function Slice(img: string, size: int, n: int): (layer: string)
    requires size > 0 && 0 <= n < |img| / size
    ensures 0 <= n * size && (n + 1) * size <= |img|
    ensures |layer| == size && layer == img[n * size..(n + 1) * size]
  {
    SliceFits(|img|, size, n);
    img[n * size..(n + 1) * size]
  }

  /** A layer that starts before the last whole layer ends inside the image. */
  lemma SliceFits(length: nat, size: int, n: int)
    requires size > 0 && 0 <= n < length / size
    ensures 0 <= n * size <= (n + 1) * size <= length
  {
    var q := length / size;
    Arithmetic.MulMonotone(n, n + 1, size);
    Arithmetic.MulMonotone(n + 1, q, size);
    Arithmetic.QuotientFits(length, size);
  }

  /** The layers written one after the other. */
  function Concat(layers: seq<string>): string {
    if layers == [] then [] else Concat(layers[..|layers| - 1]) + layers[|layers| - 1]
  }

  /** `first_non_two(s)`: the first pixel that is not transparent, or '2'
      when every one is. */
  function FirstNonTwo(s: seq<char>): (c: char)
    ensures c == Transparent <==> forall i :: 0 <= i < |s| ==> s[i] == Transparent
    ensures c != Transparent ==>
      exists i :: 0 <= i < |s| && s[i] == c && forall j :: 0 <= j < i ==> s[j] == Transparent
  {
    if s == [] then Transparent
    else if s[0] != Transparent then s[0]
    else
      var c := FirstNonTwo(s[1..]);
      assert forall i :: 0 <= i < |s[1..]| ==> s[1..][i] == s[i + 1];
      if c != Transparent then
        var i :| 0 <= i < |s[1..]| && s[1..][i] == c && forall j :: 0 <= j < i ==> s[1..][j] == Transparent;
        assert s[i + 1] == c && forall j :: 0 <= j < i + 1 ==> s[j] == Transparent;
        c
      else c
  }

  /** `Counter(layer)[c]`. */
  function Count(layer: string, c: char): nat {
    multiset(layer)[c]
  }

  /** `[layer[i] for layer in layers]`. */
  function Column(layers: seq<string>, i: nat): (pixels: seq<char>)
    requires forall n :: 0 <= n < |layers| ==> i < |layers[n]|
    ensures |pixels| == |layers| && forall n :: 0 <= n < |layers| ==> pixels[n] == layers[n][i]
  {
    seq(|layers|, n requires 0 <= n < |layers| => layers[n][i])
  }

  function IsDigit(c: char): bool { '0' <= c <= '9' }

  function DigitValue(c: char): int
    requires IsDigit(c)
  {
    c as int - '0' as int
  }

  /** `min(layer_counts, key=lambda d: d['0'])`: `min` keeps the first of
      equal keys, so the result is the first layer with the fewest zeros. */
  method FewestZeros(layers: seq<string>) returns (r: Option<nat>)
    ensures r.None? <==> layers == []
    ensures r.Some? ==>
      && r.value < |layers|
      && (forall j :: 0 <= j < |layers| ==> Count(layers[r.value], '0') <= Count(layers[j], '0'))
      && (forall j :: 0 <= j < r.value ==> Count(layers[r.value], '0') < Count(layers[j], '0'))
  {
    if layers == [] {
      return None;
    }
    var best := 0;
    var k := 1;
    while k < |layers|
      invariant 1 <= k <= |layers| && best < k
      invariant forall j :: 0 <= j < k ==> Count(layers[best], '0') <= Count(layers[j], '0')
      invariant forall j :: 0 <= j < best ==> Count(layers[best], '0') < Count(layers[j], '0')
    {
      if Count(layers[k], '0') < Count(layers[best], '0') {
        best := k;
      }
      k := k + 1;
    }
    return Some(best);
  }

  /** The checksum: the number of '1' pixels times the number of '2'
      pixels in the layer `FewestZeros` picks; `min` of no layers raises. */
  method Checksum(layers: seq<string>) returns (r: Result<int, Error>)
    ensures r.Err? <==> layers == []
    ensures r.Err? ==> r.error == NoLayers
    ensures r.Ok? ==> exists b :: (
      && 0 <= b < |layers|
      && r.value == Count(layers[b], '1') * Count(layers[b], '2')
      && (forall j :: 0 <= j < |layers| ==> Count(layers[b], '0') <= Count(layers[j], '0'))
      && (forall j :: 0 <= j < b ==> Count(layers[b], '0') < Count(layers[j], '0')))
  {
    var best := FewestZeros(layers);
    if best.None? {
      return Err(NoLayers);
    }
    var b := best.value;
    return Ok(Count(layers[b], '1') * Count(layers[b], '2'));
  }

  /** The decoding loop: for each of the width * height pixel positions,
      `int(first_non_two(pixels))` of that position across the layers, in
      order; a pixel that is not a digit raises. */
  method Decode(img: string, width: int, height: int) returns (r: Result<seq<int>, Error>)
    ensures Layers(img, width, height).Err? ==> r == Err(ZeroDivision)
    ensures r.Ok? ==> Layers(img, width, height).Ok? && DecodedFrom(r.value, Layers(img, width, height).value, width * height)
    ensures r.Err? && r.error.NotADigit? ==> (
      && Layers(img, width, height).Ok?
      && exists i ::
           && 0 <= i < width * height
           && FailsAt(Layers(img, width, height).value, i, r.error.c)
           && forall j :: 0 <= j < i ==> IsDigit(FirstNonTwo(Column(Layers(img, width, height).value, j))))
  {
    var layers := Layers(img, width, height);
    if layers.Err? {
      return Err(ZeroDivision);
    }
    r := DecodeLayers(layers.value, width * height);
  }

  /** The loop itself, over layers of `size` pixels. */
  method DecodeLayers(layers: seq<string>, size: int) returns (r: Result<seq<int>, Error>)
    requires forall n :: 0 <= n < |layers| ==> |layers[n]| == size
    ensures r.Ok? ==> DecodedFrom(r.value, layers, size)
    ensures r.Err? ==> r.error.NotADigit?
    ensures r.Err? ==>
      exists i ::
        && 0 <= i < size
        && FailsAt(layers, i, r.error.c)
        && forall j :: 0 <= j < i ==> IsDigit(FirstNonTwo(Column(layers, j)))
  {
    var message: seq<int> := [];
    var i := 0;
    while i < size
      invariant 0 <= i && (size > 0 ==> i <= size)
      invariant size <= 0 ==> i == 0
      invariant DecodedFrom(message, layers, i)
    {
      var pixel := FirstNonTwo(Column(layers, i));
      if !IsDigit(pixel) {
        assert FailsAt(layers, i, pixel);
        return Err(NotADigit(pixel));
      }
      DecodedMore(message, layers, size, i);
      message := message + [DigitValue(pixel)];
      i := i + 1;
    }
    return Ok(message);
  }

  /** Every layer has at least `size` pixels, and pixel i of `message` is
      the digit `first_non_two` finds at position i, for each i < size. */
  ghost predicate DecodedFrom(message: seq<int>, layers: seq<string>, size: int) {
    && |message| == (if size < 0 then 0 else size)
    && (forall n :: 0 <= n < |layers| ==> |message| <= |layers[n]|)
    && forall i :: 0 <= i < |message| ==>
      var c := FirstNonTwo(Column(layers, i));
      IsDigit(c) && message[i] == DigitValue(c)
  }

  /** One more decoded position, when its pixel is a digit. */
  lemma DecodedMore(message: seq<int>, layers: seq<string>, size: int, i: nat)
    requires forall n :: 0 <= n < |layers| ==> |layers[n]| == size
    requires i < size && DecodedFrom(message, layers, i)
    requires IsDigit(FirstNonTwo(Column(layers, i)))
    ensures DecodedFrom(message + [DigitValue(FirstNonTwo(Column(layers, i)))], layers, i + 1)
  {
    var next := message + [DigitValue(FirstNonTwo(Column(layers, i)))];
    forall j | 0 <= j < |next|
      ensures IsDigit(FirstNonTwo(Column(layers, j))) && next[j] == DigitValue(FirstNonTwo(Column(layers, j)))
    {
      if j < |message| {
        assert next[j] == message[j];
      }
    }
  }

  /** Decoding stops at position i with the non-digit pixel c. */
  ghost predicate FailsAt(layers: seq<string>, i: nat, c: char) {
    && (forall n :: 0 <= n < |layers| ==> i < |layers[n]|)
    && c == FirstNonTwo(Column(layers, i))
    && !IsDigit(c)
  }

  // ---------------------------------------------------------------------
  // Properties

  /** The layers, written back to back, are the image without its
      trailing partial layer, and what is dropped is shorter than a layer. */
  lemma LayersCoverImage(img: string, width: int, height: int)
    requires width * height > 0
    ensures var layers := Layers(img, width, height).value;
      && Concat(layers) == img[..|layers| * (width * height)]
      && 0 <= |img| - |layers| * (width * height) < width * height
  {
    var size := width * height;
    var layers := Layers(img, width, height).value;
    PrefixConcat(img, size, layers, |layers|);
    assert layers[..|layers|] == layers;
    Arithmetic.QuotientLeaves(|img|, size);
  }

  lemma {:induction false} PrefixConcat(img: string, size: int, layers: seq<string>, k: nat)
    requires size > 0 && k <= |layers| == |img| / size
    requires forall n :: 0 <= n < |layers| ==> layers[n] == Slice(img, size, n)
    ensures k * size <= |img| && Concat(layers[..k]) == img[..k * size]
  {
    if k == 0 {
      assert layers[..0] == [];
    } else {
      var j := k - 1;
      PrefixConcat(img, size, layers, j);
      SliceFits(|img|, size, j);
      var lo, hi := j * size, (j + 1) * size;
      assert layers[j] == img[lo..hi];
      assert hi == k * size;
      assert layers[..k][..j] == layers[..j];
      assert Concat(layers[..k]) == Concat(layers[..j]) + layers[j];
      assert img[..lo] + img[lo..hi] == img[..hi];
    }
  }

  /** The image the puzzle reads has 25 * 6 = 150 pixels per layer. */
  lemma PuzzleLayerSize(img: string)
    ensures Layers(img, Width, Height).Ok?
    ensures |Layers(img, Width, Height).value| == |img| / 150
  {
  }

  /** A 2x1 image of two layers keeps the first non-transparent pixel of each
      position: "0222" has layers "02" and "22", and decodes to 0 then 2. */
  lemma DecodeExample()
    ensures Layers("0222", 2, 1) == Ok(["02", "22"])
    ensures FirstNonTwo(Column(["02", "22"], 0)) == '0'
    ensures FirstNonTwo(Column(["02", "22"], 1)) == '2'
  {
    var layers := Layers("0222", 2, 1).value;
    assert |layers| == 2;
    assert layers[0] == "0222"[0..2] == "02";
    assert layers[1] == "0222"[2..4] == "22";
    assert layers == ["02", "22"];
    assert Column(["02", "22"], 0) == ['0', '2'];
    assert Column(["02", "22"], 1) == ['2', '2'];
  }
}
