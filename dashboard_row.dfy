/** What a row of the dashboard table shows for a kit in its name and grade columns. */
module DashboardRow {
  import opened Wrappers
  import opened Kits

  /** The placeholder of an empty cell. */
  const EmptyCell := "\U{2014}"

  /** The name column: the model name, preceded by the brand for brands other than Bandai. */
  function NameCell(k: Kit): string {
    if k.brand != Bandai then BrandName(k.brand) + " " + k.modelName else k.modelName
  }

  /** The name cell always ends with the model name, and adds something in front of it
      exactly for kits not made by Bandai. */
  lemma NameCellEndsWithName(k: Kit)
    ensures var c := NameCell(k);
      && |c| >= |k.modelName| && c[|c| - |k.modelName|..] == k.modelName
      && (|c| > |k.modelName| <==> k.brand != Bandai)
  {
  }

  /** The grade column: the placeholder for brands other than Bandai; for Bandai the
      subline when the grade is HG and a subline is set, and otherwise the grade. */
  function GradeCell(k: Kit): string {
    if k.brand != Bandai then EmptyCell
    else if k.subline.Some? && k.grade == HG then SublineName(k.subline.value)
    else GradeName(k.grade)
  }

  /** No grade name is a subline name, nor the placeholder. */
  lemma GradeNamesAreNotSublines(g: Grade)
    ensures SublineFromName(GradeName(g)) == None
    ensures GradeName(g) != EmptyCell
  {
  }

  /** The grade column names a subline exactly for Bandai HG kits with a subline, and
      then names the kit's own subline; otherwise a Bandai kit's cell names its grade. */
  lemma GradeCellSpec(k: Kit)
    ensures var c := GradeCell(k);
      && (SublineFromName(c).Some? <==> k.brand == Bandai && k.grade == HG && k.subline.Some?)
      && (SublineFromName(c).Some? ==> SublineFromName(c) == k.subline)
      && (k.brand == Bandai && SublineFromName(c).None? ==> GradeFromName(c) == Some(k.grade))
      && (c == EmptyCell <==> k.brand != Bandai)
  {
    GradeNamesAreNotSublines(k.grade);
    GradeNameRoundTrip(k.grade);
    if k.subline.Some? {
      SublineNameRoundTrip(k.subline.value);
      assert SublineName(k.subline.value) != EmptyCell;
    }
  }
}
