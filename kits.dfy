/** The `gunpla_kits` row and the three enumerations of the database schema. */
module Kits {
  import opened Wrappers

  datatype Brand = Bandai | SNAA | MotorNuclear | InEraPlus | Hemoxian | CangDao | AniMester | OtherBrand

  datatype Grade = HG | RG | MG | PG | EG | SD | BB | RE100 | FM | NG

  datatype Subline = HGUC | HGIBO | HGCE | HG00 | HGAC | HGAGE | HGBF | HGGTO | HGBC

  function BrandName(b: Brand): string {
    match b
    case Bandai => "Bandai"
    case SNAA => "SNAA"
    case MotorNuclear => "Motor Nuclear"
    case InEraPlus => "In Era+"
    case Hemoxian => "Hemoxian"
    case CangDao => "CangDao"
    case AniMester => "AniMester"
    case OtherBrand => "Other"
  }

  function GradeName(g: Grade): string {
    match g
    case HG => "HG"
    case RG => "RG"
    case MG => "MG"
    case PG => "PG"
    case EG => "EG"
    case SD => "SD"
    case BB => "BB"
    case RE100 => "RE/100"
    case FM => "FM"
    case NG => "NG"
  }

  function SublineName(s: Subline): string {
    match s
    case HGUC => "HGUC"
    case HGIBO => "HGIBO"
    case HGCE => "HGCE"
    case HG00 => "HG00"
    case HGAC => "HGAC"
    case HGAGE => "HGAGE"
    case HGBF => "HGBF"
    case HGGTO => "HGGTO"
    case HGBC => "HGBC"
  }

  /** The grade whose name is `s`, if any: the `gunpla_grade` enumeration as a parser. */
  function GradeFromName(s: string): (r: Option<Grade>)
    ensures r.Some? ==> GradeName(r.value) == s
  {
    if s == "HG" then Some(HG)
    else if s == "RG" then Some(RG)
    else if s == "MG" then Some(MG)
    else if s == "PG" then Some(PG)
    else if s == "EG" then Some(EG)
    else if s == "SD" then Some(SD)
    else if s == "BB" then Some(BB)
    else if s == "RE/100" then Some(RE100)
    else if s == "FM" then Some(FM)
    else if s == "NG" then Some(NG)
    else None
  }

  /** The subline whose name is `s`, if any. */
  function SublineFromName(s: string): (r: Option<Subline>)
    ensures r.Some? ==> SublineName(r.value) == s
  {
    if s == "HGUC" then Some(HGUC)
    else if s == "HGIBO" then Some(HGIBO)
    else if s == "HGCE" then Some(HGCE)
    else if s == "HG00" then Some(HG00)
    else if s == "HGAC" then Some(HGAC)
    else if s == "HGAGE" then Some(HGAGE)
    else if s == "HGBF" then Some(HGBF)
    else if s == "HGGTO" then Some(HGGTO)
    else if s == "HGBC" then Some(HGBC)
    else None
  }

  /** Every grade is recognised by its own name, so names and grades correspond one to one. */
  lemma GradeNameRoundTrip(g: Grade)
    ensures GradeFromName(GradeName(g)) == Some(g)
  {
  }

  lemma SublineNameRoundTrip(s: Subline)
    ensures SublineFromName(SublineName(s)) == Some(s)
  {
  }

  /** Grade, subline and brand names are non-empty and contain no space. */
  lemma NamesAreWords(b: Brand, g: Grade, s: Subline)
    ensures |GradeName(g)| > 0 && ' ' !in GradeName(g)
    ensures |SublineName(s)| > 0 && ' ' !in SublineName(s)
    ensures |BrandName(b)| > 0
  {
  }

  /** One row of `gunpla_kits`. A purchase price is held in whole cents. */
  datatype Kit = Kit(
    id: string,
    userId: string,
    createdAt: string,
    brand: Brand,
    grade: Grade,
    subline: Option<Subline>,
    modelNumber: string,
    modelName: string,
    series: Option<string>,
    releaseYear: Option<int>,
    owned: bool,
    exclusive: bool,
    purchaseDate: Option<string>,
    purchasePrice: Option<int>,
    imageUrl: Option<string>,
    notes: Option<string>
  )
}
