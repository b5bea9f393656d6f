/** The texts a kit card derives from its kit: the prefix before the model number, the
    title, the image's alternative text, the image source, and the badge. */
module KitCard {
  import opened Wrappers
  import opened Text
  import opened Kits
  import ImageStats
  import DashboardRow

  /** The brand for brands other than Bandai; for Bandai the subline when one is set, and
      otherwise the grade. */
  function Prefix(k: Kit): string {
    if k.brand != Bandai then BrandName(k.brand)
    else if k.subline.Some? then SublineName(k.subline.value)
    else GradeName(k.grade)
  }

  /** The prefix, model number and model name separated by spaces, trimmed. */
  function DisplayTitle(k: Kit): string {
    Trim(Prefix(k) + " " + k.modelNumber + " " + k.modelName)
  }

  /** The title, followed by " - " and the series when the series is not empty. */
  function ImageAlt(k: Kit): string {
    DisplayTitle(k) + (if k.series.Some? && k.series.value != "" then " - " + k.series.value else "")
  }

  /** The trimmed image URL, "" when there is none. */
  function ImageSrc(k: Kit): string {
    Trim(if k.imageUrl.Some? then k.imageUrl.value else "")
  }

  predicate HasImage(k: Kit) {
    |ImageSrc(k)| > 0
  }

  /** The badge: the brand for brands other than Bandai, and otherwise the prefix. */
  function Badge(k: Kit): string {
    if k.brand != Bandai then BrandName(k.brand) else Prefix(k)
  }

  /** The badge always shows the prefix. */
  lemma BadgeIsPrefix(k: Kit)
    ensures Badge(k) == Prefix(k)
  {
  }

  /** The prefix is a non-empty name that neither starts nor ends with white space. */
  lemma PrefixHasNoEdgeSpace(k: Kit)
    ensures var p := Prefix(k); |p| > 0 && !IsWhiteSpace(p[0]) && !IsWhiteSpace(p[|p| - 1])
  {
  }

  /** The title starts with the prefix and a space; and when the model name does not end
      with white space, the title is exactly the three parts joined by spaces. */
  lemma DisplayTitleStartsWithPrefix(k: Kit)
    ensures var p, t := Prefix(k), DisplayTitle(k);
      |t| >= |p| && t[..|p|] == p
    ensures k.modelName != [] && !IsWhiteSpace(k.modelName[|k.modelName| - 1]) ==>
      DisplayTitle(k) == Prefix(k) + " " + k.modelNumber + " " + k.modelName
  {
    var p := Prefix(k);
    var s := p + " " + k.modelNumber + " " + k.modelName;
    PrefixHasNoEdgeSpace(k);
    assert s[0] == p[0];
    TrimStartOfNonWhite(s);
    var r := TrimEnd(s);
    assert s[|p| - 1] == p[|p| - 1];
    TrimEndKeeps(s, |p| - 1);
    assert r[..|p|] == s[..|p|] == p;
    if k.modelName != [] && !IsWhiteSpace(k.modelName[|k.modelName| - 1]) {
      assert s[|s| - 1] == k.modelName[|k.modelName| - 1];
      TrimOfTrimmed(s);
    }
  }

  /** The alternative text starts with the title, and is longer exactly when the series
      is present and not empty. */
  lemma ImageAltExtendsTitle(k: Kit)
    ensures var t, a := DisplayTitle(k), ImageAlt(k);
      && |a| >= |t| && a[..|t|] == t
      && (|a| > |t| <==> k.series.Some? && k.series.value != "")
      && (|a| > |t| ==> a[|t|..] == " - " + k.series.value)
  {
  }

  /** A card shows an image exactly when the statistics count the kit as having one, and
      the source is the URL without its surrounding white space. */
  lemma HasImageAgreesWithStats(k: Kit)
    ensures HasImage(k) <==> ImageStats.HasImage(k)
    ensures HasImage(k) <==> k.imageUrl.Some? && !AllWhiteSpace(k.imageUrl.value)
    ensures HasImage(k) ==> ImageSrc(k) == Trim(k.imageUrl.value)
  {
    ImageStats.HasImageIff(k);
    if k.imageUrl.None? {
      assert ImageSrc(k) == Trim("") == "";
    }
  }

  /** The card and the dashboard's grade column disagree on Bandai kits: the card shows a
      set subline whatever the grade, the column only under grade HG. They agree on every
      Bandai kit without a subline or of grade HG. */
  lemma PrefixAgainstGradeCell(k: Kit)
    requires k.brand == Bandai
    ensures Prefix(k) == DashboardRow.GradeCell(k) <==> k.subline.None? || k.grade == HG
  {
    if k.subline.Some? && k.grade != HG {
      DashboardRow.GradeNamesAreNotSublines(k.grade);
      SublineNameRoundTrip(k.subline.value);
    }
  }

  /** A Bandai MG kit recorded with subline HGUC: its card says "HGUC", its table row "MG". */
  lemma SublineOutsideHGExample(k: Kit)
    requires k.brand == Bandai && k.grade == MG && k.subline == Some(HGUC)
    ensures Prefix(k) == "HGUC" && DashboardRow.GradeCell(k) == "MG"
  {
  }
}
