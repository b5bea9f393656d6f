/** Estimates of image storage and monthly bandwidth for a collection, and of what the
    compression saves. Every estimate is a fixed size per kit that has an image; sizes are
    in bytes and the figures shown in gibibytes are kept in hundredths. */
module ImageStats {
  import opened Text
  import opened Seqs
  import opened Kits
  import opened Arithmetic

  const KiB: nat := 1024
  /** 1024 * 1024 * 1024. */
  const GiB: nat := 1073741824

  /** Estimated bytes of one kit's three compressed images: 330 KiB. */
  const OptimizedSizePerKit: nat := 337920
  /** Estimated bytes of one uncompressed upload: 2.5 MiB. */
  const OriginalSizePerKit: nat := 2621440

  /** A kit has an image when its URL is present and not blank. */
  predicate HasImage(k: Kit) {
    k.imageUrl.Some? && Trim(k.imageUrl.value) != ""
  }

  /** Blank means made only of white space: a URL of spaces is no image. */
  lemma HasImageIff(k: Kit)
    ensures HasImage(k) <==> k.imageUrl.Some? && !AllWhiteSpace(k.imageUrl.value)
  {
    if k.imageUrl.Some? {
      TrimEmptyIff(k.imageUrl.value);
    }
  }

  function KitsWithImages(kits: seq<Kit>): (n: nat)
    ensures n <= |kits|
  {
    |Filter(kits, HasImage)|
  }

  /** `n / d` rounded half up: the value `toFixed` shows for a non-negative ratio. */
  function RoundDiv(n: nat, d: nat): nat
    requires d > 0
  {
    (2 * n + d) / (2 * d)
  }

  /** The rounded value is within one half of the exact quotient. */
  lemma RoundDivIsNearest(n: nat, d: nat)
    requires d > 0
    ensures var q := RoundDiv(n, d); 2 * n - d < 2 * d * q <= 2 * n + d
  {
    var q := RoundDiv(n, d);
    assert (2 * d) * q <= 2 * n + d < (2 * d) * q + 2 * d;
  }

  /** A byte count as gibibytes with two decimals, in hundredths. */
  function GiBHundredths(bytes: nat): nat {
    RoundDiv(100 * bytes, GiB)
  }

  datatype ImageStatsReport = ImageStatsReport(
    totalKits: nat,
    kitsWithImages: nat,
    estimatedTotalSize: nat,
    averageImageSize: nat,
    conservativeEgress: nat,
    moderateEgress: nat,
    heavyEgress: nat)

  /** `calculateImageStats`; the three egress figures are in bytes for 100, 500 and 1000
      views of each image a month. */
  function CalculateImageStats(kits: seq<Kit>): ImageStatsReport {
    var n := KitsWithImages(kits);
    var total := n * OptimizedSizePerKit;
    ImageStatsReport(
      |kits|, n, total,
      if n > 0 then total / n else 0,
      n * 100 * OptimizedSizePerKit,
      n * 500 * OptimizedSizePerKit,
      n * 1000 * OptimizedSizePerKit)
  }

  /** The estimates scale with the kits that have an image: the average is the per-kit
      estimate (0 without images), and moderate and heavy use are five and ten times the
      conservative egress. */
  lemma ImageStatsSpec(kits: seq<Kit>)
    ensures var r := CalculateImageStats(kits);
      && r.kitsWithImages <= r.totalKits == |kits|
      && r.estimatedTotalSize == r.kitsWithImages * OptimizedSizePerKit
      && r.averageImageSize == (if r.kitsWithImages > 0 then OptimizedSizePerKit else 0)
      && r.estimatedTotalSize == r.kitsWithImages * r.averageImageSize
      && r.moderateEgress == 5 * r.conservativeEgress
      && r.heavyEgress == 10 * r.conservativeEgress
      && r.conservativeEgress == 100 * r.estimatedTotalSize
  {
    var n := KitsWithImages(kits);
    if n > 0 {
      DivideExactly(n * OptimizedSizePerKit, n, OptimizedSizePerKit, 0);
    }
  }

  /** One kit with an image viewed 100 times a month: about 0.03 GiB. */
  lemma OneImageEgressExample(k: Kit)
    requires HasImage(k)
    ensures GiBHundredths(CalculateImageStats([k]).conservativeEgress) == 3
  {
    assert Filter([k], HasImage) == [k];
  }

  /** Kits without an image change none of the estimates except the kit count. */
  lemma ImagelessKitsDoNotCount(kits: seq<Kit>, k: Kit)
    requires !HasImage(k)
    ensures KitsWithImages(kits + [k]) == KitsWithImages(kits)
    ensures CalculateImageStats(kits + [k]) == CalculateImageStats(kits).(totalKits := |kits| + 1)
  {
    FilterAppend(kits, [k], HasImage);
    assert Filter([k], HasImage) == [];
  }

  /** Bytes saved on one kit: the original less the optimized estimate. */
  const SavedPerKit: nat := 2283520

  datatype SavingsReport = SavingsReport(
    savedPerKitKiB: nat,
    totalSavedBytes: nat,
    monthlySavedBytes: nat,
    compressionRatioPercent: nat)

  /** `calculateOptimizationSavings`; the monthly figure is for 500 views of each image. */
  function CalculateOptimizationSavings(kits: seq<Kit>): SavingsReport {
    var n := KitsWithImages(kits);
    SavingsReport(
      RoundDiv(SavedPerKit, KiB),
      n * SavedPerKit,
      n * 500 * SavedPerKit,
      RoundDiv(100 * SavedPerKit, OriginalSizePerKit))
  }

  /** The constant figures: 2230 KiB saved per kit and an 87% reduction; and what is saved
      plus what is stored is what the uncompressed images would have taken. */
  lemma SavingsSpec(kits: seq<Kit>)
    ensures var r := CalculateOptimizationSavings(kits);
      && SavedPerKit == OriginalSizePerKit - OptimizedSizePerKit
      && r.savedPerKitKiB == 2230
      && r.compressionRatioPercent == 87
      && r.totalSavedBytes + CalculateImageStats(kits).estimatedTotalSize == KitsWithImages(kits) * OriginalSizePerKit
      && r.monthlySavedBytes == 500 * r.totalSavedBytes
  {
    var n := KitsWithImages(kits);
    assert n * SavedPerKit + n * OptimizedSizePerKit == n * (SavedPerKit + OptimizedSizePerKit);
  }
}
