/** The image nodes of img_utils/img_nodes.py: `IMG_padder.pad`,
    `IMG_unpadder.unpad` and the file-naming loop of `SaveImageAdvanced.save_images`. */
module ImgNodes {
  import opened Wrappers
  import opened Images
  import Decimal

  // ---------------------------------------------------------------------------
  // Sizes computed from a fraction
  // ---------------------------------------------------------------------------

  /** `int(n * f)` for a non-negative fraction: Python truncates toward zero,
      which is the floor here. */
  function FloorMul(n: nat, f: real): (p: nat)
    requires 0.0 <= f
    ensures p as real <= n as real * f < p as real + 1.0
  {
    (n as real * f).Floor
  }

  /** A fraction of at most one never yields more than the whole. */
  lemma FloorMulAtMost(n: nat, f: real)
    requires 0.0 <= f <= 1.0
    ensures FloorMul(n, f) <= n
  {
    assert n as real * f <= n as real;
  }

  /** The edge a node works on. Both nodes compare their location string with
      the four names "bottom", "top", "left" and "right"; any other string
      selects no edge and falls through every branch. */
  datatype Location = Bottom | Top | Left | Right | Unrecognised

  /** The name the nodes' string parameter gives each edge. */
  function Name(loc: Location): string
    requires loc != Unrecognised
  {
    match loc
    case Bottom => "bottom"
    case Top => "top"
    case Left => "left"
    case Right => "right"
  }

  /** The branch a location string selects in `pad` and `unpad`. */
  function ParseLocation(location: string): (loc: Location)
    ensures loc != Unrecognised ==> Name(loc) == location
    ensures loc == Unrecognised <==> location !in {"bottom", "top", "left", "right"}
  {
    if location == "bottom" then Bottom
    else if location == "top" then Top
    else if location == "left" then Left
    else if location == "right" then Right
    else Unrecognised
  }

  /** Every recognised edge is selected by its own name. */
  lemma ParseName(loc: Location)
    requires loc != Unrecognised
    ensures ParseLocation(Name(loc)) == loc
  {
  }

  // ---------------------------------------------------------------------------
  // IMG_padder.pad
  // ---------------------------------------------------------------------------

  /** Width, in pixels, of the edge strip whose mean colours the border. */
  const ColorMeanWidth: nat := 4

  function Min(a: nat, b: nat): nat { if a <= b then a else b }

  /** The strip at the padded edge that the border colour is averaged over:
      `image[:, -4:]`, `image[:, :4]`, `image[:, :, :4]` or `image[:, :, -4:]`
      (the whole image along that axis when it is shorter than four pixels). */
  function EdgeStrip<T>(x: Image<T>, loc: Location): (s: Image<T>)
    requires loc != Unrecognised
    ensures loc == Bottom ==> s.h == Min(ColorMeanWidth, x.h) && s.w == x.w && Embedded(s, x, x.h - s.h, 0)
    ensures loc == Top ==> s.h == Min(ColorMeanWidth, x.h) && s.w == x.w && Embedded(s, x, 0, 0)
    ensures loc == Left ==> s.h == x.h && s.w == Min(ColorMeanWidth, x.w) && Embedded(s, x, 0, 0)
    ensures loc == Right ==> s.h == x.h && s.w == Min(ColorMeanWidth, x.w) && Embedded(s, x, 0, x.w - s.w)
  {
    match loc
    case Bottom => Rows(x, x.h - Min(ColorMeanWidth, x.h), x.h)
    case Top => Rows(x, 0, Min(ColorMeanWidth, x.h))
    case Left => Cols(x, 0, Min(ColorMeanWidth, x.w))
    case Right => Cols(x, x.w - Min(ColorMeanWidth, x.w), x.w)
  }

  /** Number of border rows `pad` adds. */
  function BorderRows(h: nat, f: real, loc: Location): nat
    requires 0.0 <= f
  {
    if loc == Bottom || loc == Top then FloorMul(h, f) else 0
  }

  /** Number of border columns `pad` adds. */
  function BorderCols(w: nat, f: real, loc: Location): nat
    requires 0.0 <= f
  {
    if loc == Left || loc == Right then FloorMul(w, f) else 0
  }

  /** Row at which the original image starts in the padded one. */
  function PadRowOffset(h: nat, f: real, loc: Location): nat
    requires 0.0 <= f
  {
    if loc == Top then BorderRows(h, f, loc) else 0
  }

  /** Column at which the original image starts in the padded one. */
  function PadColOffset(w: nat, f: real, loc: Location): nat
    requires 0.0 <= f
  {
    if loc == Left then BorderCols(w, f, loc) else 0
  }

  /** `IMG_padder.pad`: adds a border of `int(n * f)` rows (bottom, top) or
      columns (left, right), every cell of which holds `mean` of the edge strip
      next to it. `mean` stands for the tensor's `.mean()`. */
  function Pad<T>(x: Image<T>, f: real, loc: Location, mean: Image<T> -> T): (r: Image<T>)
    requires 0.0 <= f
    ensures r.bs == x.bs && r.c == x.c
    ensures r.h == x.h + BorderRows(x.h, f, loc)
    ensures r.w == x.w + BorderCols(x.w, f, loc)
    ensures Embedded(x, r, PadRowOffset(x.h, f, loc), PadColOffset(x.w, f, loc))
    ensures loc != Unrecognised ==>
      ConstantOutside(r, PadRowOffset(x.h, f, loc), PadColOffset(x.w, f, loc), x.h, x.w,
                      mean(EdgeStrip(x, loc)))
    ensures loc == Unrecognised ==> r == x
  {
    if loc == Bottom then
      CatRows(x, Filled(x.bs, FloorMul(x.h, f), x.w, x.c, mean(EdgeStrip(x, loc))))
    else if loc == Top then
      CatRows(Filled(x.bs, FloorMul(x.h, f), x.w, x.c, mean(EdgeStrip(x, loc))), x)
    else if loc == Left then
      CatCols(Filled(x.bs, x.h, FloorMul(x.w, f), x.c, mean(EdgeStrip(x, loc))), x)
    else if loc == Right then
      CatCols(x, Filled(x.bs, x.h, FloorMul(x.w, f), x.c, mean(EdgeStrip(x, loc))))
    else
      x
  }

  // ---------------------------------------------------------------------------
  // IMG_unpadder.unpad
  // ---------------------------------------------------------------------------

  /** Rows the location crop of `unpad` keeps, before rounding down to a multiple of four. */
  function KeptRows(h: nat, f: real, loc: Location): nat
    requires 0.0 <= f <= 1.0
  {
    FloorMulAtMost(h, f);
    if loc == Bottom then FloorMul(h, 1.0 - f)
    else if loc == Top then h - FloorMul(h, f)
    else h
  }

  /** Columns the location crop of `unpad` keeps, before rounding down to a multiple of four. */
  function KeptCols(w: nat, f: real, loc: Location): nat
    requires 0.0 <= f <= 1.0
  {
    FloorMulAtMost(w, f);
    if loc == Right then FloorMul(w, 1.0 - f)
    else if loc == Left then w - FloorMul(w, f)
    else w
  }

  /** First input row that survives `unpad`. */
  function UnpadRowOffset(h: nat, f: real, loc: Location): nat
    requires 0.0 <= f
  {
    if loc == Top then FloorMul(h, f) else 0
  }

  /** First input column that survives `unpad`. */
  function UnpadColOffset(w: nat, f: real, loc: Location): nat
    requires 0.0 <= f
  {
    if loc == Left then FloorMul(w, f) else 0
  }

  /** The largest multiple of four not above `n`: `n - n % 4`. */
  function DownTo4(n: nat): (m: nat)
    ensures m % 4 == 0 && m <= n < m + 4
  {
    n - n % 4
  }

  /** The location crop of `unpad`: keeps `int(h * (1 - f))` rows (bottom),
      drops the first `int(h * f)` rows (top), drops the first `int(w * f)`
      columns (left) or keeps `int(w * (1 - f))` columns (right); any other
      location crops nothing. */
  function Crop<T>(x: Image<T>, f: real, loc: Location): (r: Image<T>)
    requires 0.0 <= f <= 1.0
    ensures r.h == KeptRows(x.h, f, loc) && r.w == KeptCols(x.w, f, loc)
    ensures Embedded(r, x, UnpadRowOffset(x.h, f, loc), UnpadColOffset(x.w, f, loc))
  {
    FloorMulAtMost(x.h, f);
    FloorMulAtMost(x.h, 1.0 - f);
    FloorMulAtMost(x.w, f);
    FloorMulAtMost(x.w, 1.0 - f);
    match loc
    case Bottom => Rows(x, 0, FloorMul(x.h, 1.0 - f))
    case Top => Rows(x, FloorMul(x.h, f), x.h)
    case Left => Cols(x, FloorMul(x.w, f), x.w)
    case Right => Cols(x, 0, FloorMul(x.w, 1.0 - f))
    case Unrecognised => x
  }

  /** `x[:, :h - h % 4, :w - w % 4, :]`: height and width cut down to multiples of four. */
  function TrimTo4<T>(x: Image<T>): (r: Image<T>)
    ensures r.h == DownTo4(x.h) && r.w == DownTo4(x.w)
    ensures Embedded(r, x, 0, 0)
  {
    EmbeddedTrans(Cols(Rows(x, 0, DownTo4(x.h)), 0, DownTo4(x.w)), Rows(x, 0, DownTo4(x.h)), x, 0, 0, 0, 0, 0, 0);
    Cols(Rows(x, 0, DownTo4(x.h)), 0, DownTo4(x.w))
  }

  /** `IMG_unpadder.unpad`: the location crop, then height and width cut down
      to multiples of four. */
  function Unpad<T>(x: Image<T>, f: real, loc: Location): (r: Image<T>)
    requires 0.0 <= f <= 1.0
    ensures r.bs == x.bs && r.c == x.c
    ensures r.h % 4 == 0 && r.w % 4 == 0
    ensures r.h <= x.h && r.w <= x.w
    ensures r.h <= KeptRows(x.h, f, loc) < r.h + 4
    ensures r.w <= KeptCols(x.w, f, loc) < r.w + 4
    ensures Embedded(r, x, UnpadRowOffset(x.h, f, loc), UnpadColOffset(x.w, f, loc))
  {
    EmbeddedTrans(TrimTo4(Crop(x, f, loc)), Crop(x, f, loc), x,
      0, 0, UnpadRowOffset(x.h, f, loc), UnpadColOffset(x.w, f, loc),
      UnpadRowOffset(x.h, f, loc), UnpadColOffset(x.w, f, loc));
    TrimTo4(Crop(x, f, loc))
  }

  /** The rounding of `DownTo4` is the only multiple of four within four below `n`. */
  lemma DownTo4Unique(n: nat, m: nat)
    requires m % 4 == 0 && m <= n < m + 4
    ensures m == DownTo4(n)
  {
  }

  /** With fraction 0, or a location it does not recognise, the crop of
      `unpad` keeps every row and column. */
  lemma CropKeepsAll(h: nat, w: nat, f: real, loc: Location)
    requires 0.0 <= f <= 1.0
    requires f == 0.0 || loc == Unrecognised
    ensures UnpadRowOffset(h, f, loc) == 0 && UnpadColOffset(w, f, loc) == 0
    ensures KeptRows(h, f, loc) == h && KeptCols(w, f, loc) == w
  {
  }

  /** With fraction 0, or a location it does not recognise, `unpad` only trims
      height and width down to multiples of four, keeping the top-left corner. */
  lemma UnpadOnlyTrims<T>(x: Image<T>, f: real, loc: Location)
    requires 0.0 <= f <= 1.0
    requires f == 0.0 || loc == Unrecognised
    ensures Unpad(x, f, loc).h == x.h - x.h % 4 && Unpad(x, f, loc).w == x.w - x.w % 4
    ensures Embedded(Unpad(x, f, loc), x, 0, 0)
  {
  }

  /** On an image already a multiple of four in both directions, trimming-only
      `unpad` is the identity; so `unpad` with fraction 0 is idempotent. */
  lemma UnpadAlignedIdentity<T>(x: Image<T>, f: real, loc: Location)
    requires 0.0 <= f <= 1.0
    requires f == 0.0 || loc == Unrecognised
    requires x.h % 4 == 0 && x.w % 4 == 0
    ensures Unpad(x, f, loc) == x
  {
    UnpadOnlyTrims(x, f, loc);
    Extensional(Unpad(x, f, loc), x);
  }

  /** Running `unpad` a second time with fraction 0 changes nothing. */
  lemma UnpadIdempotent<T>(x: Image<T>, f: real, loc: Location, loc': Location)
    requires 0.0 <= f <= 1.0
    ensures Unpad(Unpad(x, f, loc), 0.0, loc') == Unpad(x, f, loc)
  {
    UnpadAlignedIdentity(Unpad(x, f, loc), 0.0, loc');
  }

  /** Floor facts behind `UnpadAfterPadKeepsOriginal`: after padding `n` by
      `p = int(n * f)`, cropping the same fraction keeps at most `n` (bottom,
      right) or drops at least `p` (top, left). */
  lemma PadCropBounds(n: nat, f: real)
    requires 0.0 <= f <= 1.0
    ensures FloorMul(n + FloorMul(n, f), 1.0 - f) <= n
    ensures FloorMul(n, f) <= FloorMul(n + FloorMul(n, f), f)
  {
    var p := FloorMul(n, f);
    var m := (n + p) as real;
    assert m * (1.0 - f) <= (n as real + n as real * f) * (1.0 - f);
    assert (n as real + n as real * f) * (1.0 - f) == n as real - n as real * f * f;
    var q := FloorMul(n + p, f);
    assert p as real * f >= 0.0;
    assert m * f == n as real * f + p as real * f;
    assert p as real <= m * f < q as real + 1.0;
  }

  /** Sizes behind `UnpadAfterPadKeepsOriginal`: in an image padded at `loc`,
      the rows and columns that `unpad` at `loc` keeps lie within the window
      the original `h` × `w` image occupies. */
  lemma PadCropWindow(h: nat, w: nat, f: real, loc: Location)
    requires 0.0 <= f <= 1.0 && loc != Unrecognised
    ensures var ph := h + BorderRows(h, f, loc);
      PadRowOffset(h, f, loc) <= UnpadRowOffset(ph, f, loc)
      && UnpadRowOffset(ph, f, loc) + KeptRows(ph, f, loc) <= PadRowOffset(h, f, loc) + h
    ensures var pw := w + BorderCols(w, f, loc);
      PadColOffset(w, f, loc) <= UnpadColOffset(pw, f, loc)
      && UnpadColOffset(pw, f, loc) + KeptCols(pw, f, loc) <= PadColOffset(w, f, loc) + w
  {
    PadCropBounds(h, f);
    PadCropBounds(w, f);
    FloorMulAtMost(h + BorderRows(h, f, loc), f);
    FloorMulAtMost(w + BorderCols(w, f, loc), f);
  }

  /** `unpad` after `pad` with the same fraction and location returns only
      pixels of the original image: no border cell survives. */
  lemma UnpadAfterPadKeepsOriginal<T>(x: Image<T>, f: real, loc: Location, mean: Image<T> -> T)
    requires 0.0 <= f <= 1.0 && loc != Unrecognised
    ensures Embedded(Unpad(Pad(x, f, loc, mean), f, loc), x,
                     UnpadRowOffset(Pad(x, f, loc, mean).h, f, loc) - PadRowOffset(x.h, f, loc),
                     UnpadColOffset(Pad(x, f, loc, mean).w, f, loc) - PadColOffset(x.w, f, loc))
  {
    PadCropWindow(x.h, x.w, f, loc);
    EmbeddedWithin(Unpad(Pad(x, f, loc, mean), f, loc), x, Pad(x, f, loc, mean),
      UnpadRowOffset(Pad(x, f, loc, mean).h, f, loc), UnpadColOffset(Pad(x, f, loc, mean).w, f, loc),
      PadRowOffset(x.h, f, loc), PadColOffset(x.w, f, loc),
      UnpadRowOffset(Pad(x, f, loc, mean).h, f, loc) - PadRowOffset(x.h, f, loc),
      UnpadColOffset(Pad(x, f, loc, mean).w, f, loc) - PadColOffset(x.w, f, loc));
  }

  // ---------------------------------------------------------------------------
  // SaveImageAdvanced.save_images: file names and result records
  // ---------------------------------------------------------------------------

  /** One entry of the `results` list: `{"filename", "subfolder", "type"}`. */
  datatype SavedImage = SavedImage(filename: string, subfolder: string, kind: string)

  /** `images[0]` on an empty batch raises before anything is saved. */
  datatype SaveError = EmptyBatch

  /** `self.type` of `SaveImageAdvanced`. */
  const OutputType: string := "output"

  /** Digits of the counter in a file name: `{counter:05}`. */
  const CounterWidth: nat := 5

  /** What precedes the counter in a file name. */
  function NameHead(prefix: string, timestamp: string, addTimestamp: bool): string {
    if addTimestamp then prefix + "_" + timestamp + "_" else prefix + "_"
  }

  /** What follows the counter in a file name. */
  function NameTail(addTimestamp: bool): string {
    if addTimestamp then ".png" else "_.png"
  }

  /** `f"{prefix}_{timestamp}_{counter:05}.png"` or `f"{prefix}_{counter:05}_.png"`. */
  function FileName(prefix: string, timestamp: string, counter: nat, addTimestamp: bool): (name: string)
    ensures |name| >= |prefix| + 1 + CounterWidth + 4
    ensures name[..|prefix|] == prefix && name[|name| - 4..] == ".png"
  {
    NameHead(prefix, timestamp, addTimestamp) + Decimal.ZeroPadded(counter, CounterWidth) + NameTail(addTimestamp)
  }

  /** Reads the counter back out of a file name made with the same prefix,
      timestamp and switch; `None` for a name of another shape. */
  function CounterOf(name: string, prefix: string, timestamp: string, addTimestamp: bool): Option<nat> {
    var head, tail := NameHead(prefix, timestamp, addTimestamp), NameTail(addTimestamp);
    if |head| + |tail| <= |name| && name[..|head|] == head && name[|name| - |tail|..] == tail
       && Decimal.AllDigits(name[|head|..|name| - |tail|])
    then Some(Decimal.Value(name[|head|..|name| - |tail|]))
    else None
  }

  /** The counter can be recovered from the file name it was written into. */
  lemma CounterOfFileName(prefix: string, timestamp: string, counter: nat, addTimestamp: bool)
    ensures CounterOf(FileName(prefix, timestamp, counter, addTimestamp), prefix, timestamp, addTimestamp) == Some(counter)
  {
    var head, digits, tail := NameHead(prefix, timestamp, addTimestamp),
      Decimal.ZeroPadded(counter, CounterWidth), NameTail(addTimestamp);
    var name := head + digits + tail;
    assert name[..|head|] == head;
    assert name[|name| - |tail|..] == tail;
    assert name[|head|..|name| - |tail|] == digits;
    Decimal.ValueOfZeroPadded(counter, CounterWidth);
  }

  /** Within one call, different counters give different file names. */
  lemma FileNameInjective(prefix: string, timestamp: string, m: nat, n: nat, addTimestamp: bool)
    requires FileName(prefix, timestamp, m, addTimestamp) == FileName(prefix, timestamp, n, addTimestamp)
    ensures m == n
  {
    CounterOfFileName(prefix, timestamp, m, addTimestamp);
    CounterOfFileName(prefix, timestamp, n, addTimestamp);
  }

  /** Records named with consecutive counters never share a file name. */
  lemma DistinctFileNames(records: seq<SavedImage>, prefix: string, timestamp: string, start: nat, addTimestamp: bool)
    requires forall k :: 0 <= k < |records| ==>
      records[k].filename == FileName(prefix, timestamp, start + k, addTimestamp)
    ensures forall k, l :: 0 <= k < l < |records| ==> records[k].filename != records[l].filename
  {
    forall k, l | 0 <= k < l < |records|
      ensures records[k].filename != records[l].filename
    {
      if records[k].filename == records[l].filename {
        FileNameInjective(prefix, timestamp, start + k, start + l, addTimestamp);
      }
    }
  }

  /** The naming loop of `SaveImageAdvanced.save_images`. `prefix`, `start`
      and `subfolder` are what `folder_paths.get_save_image_path` returns and
      `timestamp` is `time.strftime("%Y%m%d-%H%M%S")`; image encoding and file
      writing are not modelled. One record per image, the k-th named with
      counter `start + k`, and no two records share a file name. */
  method SaveImages<T>(images: Image<T>, addTimestamp: bool, prefix: string, start: nat,
                       subfolder: string, timestamp: string)
    returns (r: Result<seq<SavedImage>, SaveError>)
    ensures r.Err? <==> images.bs == 0
    ensures r.Ok? ==> |r.value| == images.bs
    ensures r.Ok? ==> forall k :: 0 <= k < |r.value| ==>
      r.value[k] == SavedImage(FileName(prefix, timestamp, start + k, addTimestamp), subfolder, OutputType)
    ensures r.Ok? ==> forall k, l :: 0 <= k < l < |r.value| ==> r.value[k].filename != r.value[l].filename
  {
    if images.bs == 0 {
      return Err(EmptyBatch);
    }
    var results: seq<SavedImage> := [];
    var counter := start;
    for n := 0 to images.bs
      invariant counter == start + n
      invariant |results| == n
      invariant forall k :: 0 <= k < n ==>
        results[k] == SavedImage(FileName(prefix, timestamp, start + k, addTimestamp), subfolder, OutputType)
    {
      var file := FileName(prefix, timestamp, counter, addTimestamp);
      results := results + [SavedImage(file, subfolder, OutputType)];
      counter := counter + 1;
    }
    DistinctFileNames(results, prefix, timestamp, start, addTimestamp);
    return Ok(results);
  }
}
