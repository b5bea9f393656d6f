/** Display helpers: the one-line name of a kit, the short form of a series name, and the
    placeholder shown for a missing amount. */
module GunplaUtils {
  import opened Wrappers
  import opened Text
  import opened Kits

  /** `formatGunplaDisplay`: grade, model number and model name separated by spaces. */
  function FormatGunplaDisplay(k: Kit): string {
    GradeName(k.grade) + " " + k.modelNumber + " " + k.modelName
  }

  /** The grade can be read back from the display: it is the first word, and it names
      the kit's grade; the model number and name follow it. */
  lemma FormatGunplaDisplayStartsWithGrade(k: Kit)
    ensures var d := FormatGunplaDisplay(k);
      && FirstWord(d) == GradeName(k.grade)
      && GradeFromName(FirstWord(d)) == Some(k.grade)
      && d[|GradeName(k.grade)| + 1..] == k.modelNumber + " " + k.modelName
  {
    var g := GradeName(k.grade);
    NamesAreWords(k.brand, k.grade, HGUC);
    assert FormatGunplaDisplay(k) == g + " " + (k.modelNumber + " " + k.modelName);
    FirstWordOfJoin(g, k.modelNumber + " " + k.modelName);
    GradeNameRoundTrip(k.grade);
  }

  /** The series names with a short form, and that form. */
  const Abbreviations: map<string, string> := map[
    "Iron-Blooded Orphans" := "IBO",
    "Universal Century" := "UC",
    "Cosmic Era" := "CE",
    "Gundam 00" := "00",
    "Wing" := "Wing",
    "SEED" := "SEED",
    "SEED Destiny" := "SEED D",
    "Age" := "AGE",
    "Reconguista in G" := "RG",
    "Build Fighters" := "BF",
    "Build Fighters Try" := "BFT",
    "Build Divers" := "BD"
  ]

  /** `getSeriesAbbreviation`: the short form of a listed series, and nothing for a
      missing, empty or unlisted one. */
  function GetSeriesAbbreviation(series: Option<string>): (r: Option<string>)
    ensures r.Some? ==> series.Some? && series.value in Abbreviations && r.value == Abbreviations[series.value]
  {
    if series.None? || series.value == "" then None
    else if series.value in Abbreviations && Abbreviations[series.value] != "" then Some(Abbreviations[series.value])
    else None
  }

  /** Every listed series has its short form, which is never empty; every other input has
      none. */
  lemma SeriesAbbreviationSpec(series: Option<string>)
    ensures GetSeriesAbbreviation(series).Some? <==> series.Some? && series.value in Abbreviations
    ensures GetSeriesAbbreviation(series).Some? ==> GetSeriesAbbreviation(series).value != ""
  {
  }

  lemma SeriesAbbreviationExamples()
    ensures GetSeriesAbbreviation(Some("Iron-Blooded Orphans")) == Some("IBO")
    ensures GetSeriesAbbreviation(Some("Universal Century")) == Some("UC")
    ensures GetSeriesAbbreviation(Some("Build Fighters Try")) == Some("BFT")
    ensures GetSeriesAbbreviation(Some("Gundam Wing")) == None
    ensures GetSeriesAbbreviation(Some("")) == None
    ensures GetSeriesAbbreviation(None) == None
  {
  }

  /** Different listed series have different short forms, so the short form tells the
      series. */
  lemma AbbreviationsAreDistinct(a: string, b: string)
    requires a in Abbreviations && b in Abbreviations && a != b
    ensures Abbreviations[a] != Abbreviations[b]
  {
  }

  /** An amount as `formatCurrency` receives it. */
  datatype Amount = Number(cents: int) | Text(s: string)

  /** What `formatCurrency` shows: the placeholder "-", or the amount in dollars. */
  datatype CurrencyDisplay = Dash | Dollars(amount: Amount)

  const DashText := "-"

  /** `formatCurrency`, up to the dollar formatting of a present amount: a missing value,
      zero and the empty string show as "-". */
  function FormatCurrency(value: Nullish<Amount>): CurrencyDisplay {
    match value
    case Missing => Dash
    case Null => Dash
    case Value(Number(c)) => if c == 0 then Dash else Dollars(Number(c))
    case Value(Text(s)) => if s == "" then Dash else Dollars(Text(s))
  }

  /** The placeholder shows exactly for the falsy inputs, and any other amount is passed
      on unchanged to be formatted. */
  lemma FormatCurrencyDashIff(value: Nullish<Amount>)
    ensures FormatCurrency(value) == Dash <==>
      value.Missing? || value.Null? || value == Value(Number(0)) || value == Value(Text(""))
    ensures FormatCurrency(value).Dollars? ==> value == Value(FormatCurrency(value).amount)
  {
  }
}
