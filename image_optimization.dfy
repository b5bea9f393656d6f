/** Image sizes for uploads: the three compression presets, the height the canvas gets
    for a target width, the total size of the three compressed images, the choice of URL
    for a display context, and the bytes saved by compression. */
module ImageOptimization {
  import opened Wrappers
  import opened Arithmetic

  /** A preset: target width and height in pixels and encoder quality in hundredths. */
  datatype Preset = Preset(width: nat, height: nat, quality: nat)

  datatype SizeName = Thumbnail | Medium | Full

  /** `COMPRESSION_SETTINGS`. */
  function Settings(size: SizeName): Preset {
    match size
    case Thumbnail => Preset(200, 200, 70)
    case Medium => Preset(400, 600, 75)
    case Full => Preset(800, 1200, 78)
  }

  /** The presets grow with the size: each is wider and of higher quality than the one
      before it, and every quality is below 100 hundredths. */
  lemma PresetsGrow()
    ensures Settings(Thumbnail).width < Settings(Medium).width < Settings(Full).width
    ensures Settings(Thumbnail).quality < Settings(Medium).quality < Settings(Full).quality < 100
  {
  }

  /** `Math.round(targetWidth * naturalHeight / naturalWidth)`, rounding halves up. */
  function TargetHeight(targetWidth: nat, naturalWidth: nat, naturalHeight: nat): nat
    requires naturalWidth > 0
  {
    (2 * targetWidth * naturalHeight + naturalWidth) / (2 * naturalWidth)
  }

  /** The height is the nearest integer to the exact height that keeps the aspect
      ratio, and the upper one when the exact height lies halfway:
      exact - 1/2 < height <= exact + 1/2. */
  lemma TargetHeightIsRounded(targetWidth: nat, naturalWidth: nat, naturalHeight: nat)
    requires naturalWidth > 0
    ensures var h := TargetHeight(targetWidth, naturalWidth, naturalHeight);
      2 * targetWidth * naturalHeight - naturalWidth < 2 * naturalWidth * h <= 2 * targetWidth * naturalHeight + naturalWidth
  {
    var h := TargetHeight(targetWidth, naturalWidth, naturalHeight);
    var num, den := 2 * targetWidth * naturalHeight + naturalWidth, 2 * naturalWidth;
    assert den * h <= num < den * h + den;
  }

  /** When the exact height is a whole number it is used as is. */
  lemma TargetHeightExact(targetWidth: nat, naturalWidth: nat, naturalHeight: nat, h: nat)
    requires naturalWidth > 0 && targetWidth * naturalHeight == h * naturalWidth
    ensures TargetHeight(targetWidth, naturalWidth, naturalHeight) == h
  {
    assert 2 * targetWidth * naturalHeight + naturalWidth == (2 * naturalWidth) * h + naturalWidth;
    DivideExactly(2 * targetWidth * naturalHeight + naturalWidth, 2 * naturalWidth, h, naturalWidth);
  }

  /** The canvas a compression draws on: the target width, and the height that keeps the
      decoded image's aspect ratio. */
  function CanvasSize(targetWidth: nat, naturalWidth: nat, naturalHeight: nat): (nat, nat)
    requires naturalWidth > 0
  {
    (targetWidth, TargetHeight(targetWidth, naturalWidth, naturalHeight))
  }

  /** A 4000 x 6000 photo becomes a 400 x 600 medium image. */
  lemma MediumCanvasExample()
    ensures CanvasSize(Settings(Medium).width, 4000, 6000) == (400, 600)
  {
    TargetHeightExact(400, 4000, 6000, 600);
  }

  /** The three compressed images and the sizes reported with them. */
  datatype ImageSizes = ImageSizes(thumbnail: nat, medium: nat, full: nat, originalSize: nat, totalCompressedSize: nat)

  /** `generateImageSizes` on a file of `fileSize` bytes. `compress(width, quality)`
      stands for one compression of that file: the size of the encoded image, or the
      error it fails with. The three compressions are tried in preset order and the first
      failure fails the whole. */
  function GenerateImageSizes(fileSize: nat, compress: (nat, nat) -> Result<nat, string>): (r: Result<ImageSizes, string>)
  {
    var t := compress(Settings(Thumbnail).width, Settings(Thumbnail).quality);
    var m := compress(Settings(Medium).width, Settings(Medium).quality);
    var f := compress(Settings(Full).width, Settings(Full).quality);
    if t.Failure? then Failure(t.error)
    else if m.Failure? then Failure(m.error)
    else if f.Failure? then Failure(f.error)
    else Success(ImageSizes(t.value, m.value, f.value, fileSize, t.value + m.value + f.value))
  }

  /** The result holds the three compressions with the presets' widths and qualities,
      their total, and the original size; it fails exactly when one compression fails,
      with that compression's error. */
  lemma GenerateImageSizesSpec(fileSize: nat, compress: (nat, nat) -> Result<nat, string>)
    ensures var r := GenerateImageSizes(fileSize, compress);
      var t, m, f := compress(200, 70), compress(400, 75), compress(800, 78);
      && (r.Success? <==> t.Success? && m.Success? && f.Success?)
      && (r.Success? ==>
            && r.value.thumbnail == t.value && r.value.medium == m.value && r.value.full == f.value
            && r.value.totalCompressedSize == r.value.thumbnail + r.value.medium + r.value.full
            && r.value.originalSize == fileSize)
      && (r.Failure? ==> Failure(r.error) in [t, m, f])
  {
  }

  /** The URLs stored for an image, any of which may be missing. */
  datatype ImageUrls = ImageUrls(thumbnailUrl: Option<string>, mediumUrl: Option<string>, fullUrl: Option<string>)

  /** `a || b` on an optional string: a missing or empty `a` gives way to `b`. */
  function OrElse(a: Option<string>, b: string): string {
    if a.Some? && a.value != "" then a.value else b
  }

  /** `getOptimizedImageUrl`; a missing context means "medium". */
  function GetOptimizedImageUrl(urls: ImageUrls, context: Option<SizeName>): string {
    match (if context.Some? then context.value else Medium)
    case Thumbnail => OrElse(urls.thumbnailUrl, OrElse(urls.mediumUrl, OrElse(urls.fullUrl, "")))
    case Medium => OrElse(urls.mediumUrl, OrElse(urls.fullUrl, ""))
    case Full => OrElse(urls.fullUrl, OrElse(urls.mediumUrl, ""))
  }

  /** The URLs consulted for each context, in order of preference. */
  function FallbackChain(urls: ImageUrls, context: SizeName): seq<Option<string>> {
    match context
    case Thumbnail => [urls.thumbnailUrl, urls.mediumUrl, urls.fullUrl]
    case Medium => [urls.mediumUrl, urls.fullUrl]
    case Full => [urls.fullUrl, urls.mediumUrl]
  }

  /** The first present, non-empty candidate, or "" when there is none. */
  function FirstNonEmpty(candidates: seq<Option<string>>): string {
    if candidates == [] then ""
    else if candidates[0].Some? && candidates[0].value != "" then candidates[0].value
    else FirstNonEmpty(candidates[1..])
  }

  /** Usable: present and not empty. */
  predicate Usable(u: Option<string>) {
    u.Some? && u.value != ""
  }

  /** The first usable candidate is chosen; "" comes back exactly when none is usable. */
  lemma {:induction false} FirstNonEmptySpec(candidates: seq<Option<string>>)
    ensures var r := FirstNonEmpty(candidates);
      && (r == "" <==> forall i :: 0 <= i < |candidates| ==> !Usable(candidates[i]))
      && (r != "" ==> exists i :: 0 <= i < |candidates| && candidates[i] == Some(r)
                       && forall j :: 0 <= j < i ==> !Usable(candidates[j]))
  {
    if candidates != [] && !Usable(candidates[0]) {
      var r := FirstNonEmpty(candidates);
      FirstNonEmptySpec(candidates[1..]);
      if r != "" {
        var i :| 0 <= i < |candidates[1..]| && candidates[1..][i] == Some(r)
                 && forall j :: 0 <= j < i ==> !Usable(candidates[1..][j]);
        assert candidates[i + 1] == Some(r);
        assert forall j :: 0 <= j < i + 1 ==> !Usable(candidates[j]) by {
          forall j | 0 <= j < i + 1
            ensures !Usable(candidates[j])
          {
            if j > 0 {
              assert candidates[j] == candidates[1..][j - 1];
            }
          }
        }
      }
    }
  }

  /** Each context reads the URLs in its fallback order: thumbnail, medium, full for
      "thumbnail"; medium, full for "medium" and by default; full, medium for "full". */
  lemma GetOptimizedImageUrlFallsBack(urls: ImageUrls, context: Option<SizeName>)
    ensures var c := if context.Some? then context.value else Medium;
      GetOptimizedImageUrl(urls, context) == FirstNonEmpty(FallbackChain(urls, c))
  {
    var c := if context.Some? then context.value else Medium;
    var chain := FallbackChain(urls, c);
    assert chain[1..][1..] == chain[2..];
    assert FirstNonEmpty(chain[|chain|..]) == "";
    if c == Thumbnail {
      assert chain[2..] == [urls.fullUrl] && chain[3..] == [];
      assert FirstNonEmpty(chain[2..]) == OrElse(urls.fullUrl, "");
    } else {
      assert chain[2..] == [];
      assert FirstNonEmpty(chain[1..]) == OrElse(chain[1], "");
    }
  }

  /** The result is "" only when every URL the context consults is missing or empty, and
      otherwise it is one of the stored URLs. */
  lemma GetOptimizedImageUrlEmptyIff(urls: ImageUrls, context: Option<SizeName>)
    ensures var c := if context.Some? then context.value else Medium;
      var r := GetOptimizedImageUrl(urls, context);
      var chain := FallbackChain(urls, c);
      && (r == "" <==> forall i :: 0 <= i < |chain| ==> !Usable(chain[i]))
      && (r != "" ==> Some(r) in [urls.thumbnailUrl, urls.mediumUrl, urls.fullUrl])
  {
    var c := if context.Some? then context.value else Medium;
    GetOptimizedImageUrlFallsBack(urls, context);
    FirstNonEmptySpec(FallbackChain(urls, c));
  }

  /** `savedBytes` of `estimateEgressSavings`: not clamped, so negative when the
      compressed file is larger than the original. */
  function SavedBytes(originalSize: int, compressedSize: int): (r: int)
    ensures r < 0 <==> compressedSize > originalSize
    ensures r == 0 <==> compressedSize == originalSize
  {
    originalSize - compressedSize
  }

  /** The monthly estimate counts 5000 views of the saved bytes. */
  const MonthlyViews: nat := 5000

  function MonthlySavedBytes(originalSize: int, compressedSize: int): (r: int)
    ensures r < 0 <==> compressedSize > originalSize
  {
    SavedBytes(originalSize, compressedSize) * MonthlyViews
  }
}
