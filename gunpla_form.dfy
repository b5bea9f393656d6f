/** The kit form: the values it starts from, the record it sends when submitted, whether
    that record creates or updates a kit, which selectors it shows, and its submission
    state. */
module GunplaForm {
  import opened Wrappers
  import opened Text
  import opened Kits
  import opened Schemas

  /** The subline selector's value: nothing chosen yet (`null`), "No subline" (`""`), or
      a subline. */
  datatype SublineChoice = Unset | NoSubline | Chosen(subline: Subline)

  /** The form's fields as the inputs hold them. `imageUrl` is `None` after the image is
      removed. */
  datatype FormValues = FormValues(
    brand: Brand,
    grade: Grade,
    subline: SublineChoice,
    modelNumber: string,
    modelName: string,
    series: string,
    releaseYear: string,
    owned: bool,
    exclusive: bool,
    purchaseDate: string,
    imageUrl: Option<string>)

  /** `defaultValues`: the edited kit's values, or those of a new kit. */
  function DefaultValues(kit: Option<Kit>): FormValues {
    match kit
    case None => FormValues(Bandai, HG, Unset, "", "", "", "", false, false, "", Some(""))
    case Some(k) =>
      FormValues(
        k.brand, k.grade, ChoiceOf(k.subline), k.modelNumber, k.modelName,
        OrEmpty(k.series), YearText(k.releaseYear), k.owned, k.exclusive,
        OrEmpty(k.purchaseDate), Some(OrEmpty(k.imageUrl)))
  }

  /** `value || ""`. */
  function OrEmpty(s: Option<string>): string {
    if s.Some? then s.value else ""
  }

  /** A stored subline is selected; a missing one leaves the selector unset. */
  function ChoiceOf(subline: Option<Subline>): SublineChoice {
    if subline.Some? then Chosen(subline.value) else Unset
  }

  /** `release_year?.toString() || ""`. */
  function YearText(year: Option<int>): string {
    if year.Some? then IntToString(year.value) else ""
  }

  /** A new kit's form starts at Bandai, HG, no subline, not owned, not exclusive, and
      every text field empty. */
  lemma NewKitDefaults()
    ensures var v := DefaultValues(None);
      && v.brand == Bandai && v.grade == HG && v.subline == Unset
      && !v.owned && !v.exclusive
      && v.modelNumber == v.modelName == v.series == v.releaseYear == v.purchaseDate == ""
      && v.imageUrl == Some("")
  {
  }

  /** The object `handleSubmit` hands to the schema: one entry per registered input. No
      input is registered for the notes; the purchase price input is left out, since the
      schema accepts any text or none there. */
  function Raw(v: FormValues): RawObject {
    map[
      "brand" := JString(BrandName(v.brand)),
      "grade" := JString(GradeName(v.grade)),
      "subline" := SublineJson(v.subline),
      "model_number" := JString(v.modelNumber),
      "model_name" := JString(v.modelName),
      "series" := JString(v.series),
      "release_year" := JString(v.releaseYear),
      "owned" := JBool(v.owned),
      "exclusive" := JBool(v.exclusive),
      "purchase_date" := JString(v.purchaseDate),
      "image_url" := ImageJson(v.imageUrl)]
  }

  function SublineJson(c: SublineChoice): Json {
    match c
    case Unset => JNull
    case NoSubline => JString("")
    case Chosen(s) => JString(SublineName(s))
  }

  function ImageJson(u: Option<string>): Json {
    if u.Some? then JString(u.value) else JNull
  }

  /** What the form's object holds under each field's key. */
  function Entry(v: FormValues, f: Field): Option<Json> {
    match f
    case GradeField => Some(JString(GradeName(v.grade)))
    case SublineField => Some(SublineJson(v.subline))
    case ModelNumberField => Some(JString(v.modelNumber))
    case ModelNameField => Some(JString(v.modelName))
    case SeriesField => Some(JString(v.series))
    case ReleaseYearField => Some(JString(v.releaseYear))
    case OwnedField => Some(JBool(v.owned))
    case ExclusiveField => Some(JBool(v.exclusive))
    case PurchaseDateField => Some(JString(v.purchaseDate))
    case PurchasePriceField => None
    case NotesField => None
    case ImageUrlField => Some(ImageJson(v.imageUrl))
  }

  lemma RawEntries(v: FormValues, f: Field)
    ensures Get(Raw(v), Key(f)) == Entry(v, f)
  {
  }

  /** `zodResolver(createGunplaSchema)`: the parsed values `onSubmitForm` receives, or the
      fields the schema refuses. */
  function Validate(v: FormValues): Result<CreateGunplaInput, seq<Field>> {
    Parse(Raw(v))
  }

  /** The inputs whose values the schema refuses. */
  predicate Refused(v: FormValues, f: Field) {
    match f
    case SublineField => v.subline == NoSubline
    case ModelNumberField => !(1 <= |v.modelNumber| <= 50)
    case ModelNameField => !(1 <= |v.modelName| <= 255)
    case SeriesField => |v.series| > 100
    case _ => false
  }

  lemma FieldParsesOnForm(v: FormValues, f: Field)
    ensures FieldParses(Raw(v), f) <==> !Refused(v, f)
  {
    RawEntries(v, f);
    match f
    case GradeField =>
      GradeNameRoundTrip(v.grade);
    case SublineField =>
      if v.subline.Chosen? {
        SublineNameRoundTrip(v.subline.subline);
      }
    case _ =>
  }

  /** The form passes validation exactly when "No subline" is not chosen, the model number
      has 1 to 50 characters, the model name 1 to 255 and the series at most 100; a
      refused form reports exactly the inputs that break these. */
  lemma ValidateIff(v: FormValues)
    ensures Validate(v).Success? <==>
      v.subline != NoSubline && 1 <= |v.modelNumber| <= 50 && 1 <= |v.modelName| <= 255 && |v.series| <= 100
    ensures Validate(v).Failure? ==> forall f :: f in Validate(v).error <==> Refused(v, f)
  {
    forall f
      ensures FieldParses(Raw(v), f) <==> !Refused(v, f)
    {
      FieldParsesOnForm(v, f);
    }
    SuccessMeansEveryFieldParses(Raw(v));
    FieldsDeclared();
    assert Refused(v, SublineField) <==> v.subline == NoSubline;
    assert Refused(v, ModelNumberField) <==> !(1 <= |v.modelNumber| <= 50);
    assert Refused(v, ModelNameField) <==> !(1 <= |v.modelName| <= 255);
    assert Refused(v, SeriesField) <==> |v.series| > 100;
  }

  /** As written, the "No subline" option can never be submitted: the schema refuses its
      empty value, so the form reports the subline and sends nothing. */
  lemma NoSublineRefused(v: FormValues)
    requires v.subline == NoSubline
    ensures Validate(v).Failure? && SublineField in Validate(v).error
  {
    ValidateIff(v);
  }

  /** The brand chosen on the form makes no difference to what is validated and sent: the
      schema does not declare it. */
  lemma BrandIgnored(v: FormValues, b: Brand)
    ensures Validate(v.(brand := b)) == Validate(v)
  {
    assert Raw(v.(brand := b)) == Raw(v)["brand" := JString(BrandName(b))];
    BrandDropped(Raw(v), JString(BrandName(b)));
  }

  /** What `onSubmitForm` receives for an accepted form: the inputs' values, an unset
      subline or a removed image as null, no notes and an empty price. */
  lemma ValidatedValues(v: FormValues)
    ensures Validate(v).Success? ==> var d := Validate(v).value;
      && d.grade == v.grade && d.modelNumber == v.modelNumber && d.modelName == v.modelName
      && d.series == v.series && d.releaseYear == v.releaseYear
      && d.owned == v.owned && d.exclusive == v.exclusive && d.purchaseDate == v.purchaseDate
      && d.purchasePrice == "" && d.notes == Missing
      && d.subline == (if v.subline.Chosen? then Value(v.subline.subline) else Null)
      && d.imageUrl == (if v.imageUrl.Some? then Value(v.imageUrl.value) else Null)
  {
    if Validate(v).Success? {
      forall f
        ensures Get(Raw(v), Key(f)) == Entry(v, f)
      {
        RawEntries(v, f);
      }
      ParsedTexts(Raw(v), v);
      ParsedDefaults(Raw(v), v);
      ParsedAbsent(Raw(v), v);
      ParsedGradeAndImage(Raw(v), v);
      ParsedSublineValue(Raw(v), v);
    }
  }

  /** The parsed model number, model name and series of any accepted object whose
      entries are those of the form. */
  lemma ParsedTexts(raw: RawObject, v: FormValues)
    requires Parse(raw).Success?
    requires forall f :: Get(raw, Key(f)) == Entry(v, f)
    ensures var d := Parse(raw).value;
      d.modelNumber == v.modelNumber && d.modelName == v.modelName && d.series == v.series
  {
    SuccessMeansEveryFieldParses(raw);
    assert FieldParses(raw, ModelNumberField) && FieldParses(raw, ModelNameField);
    assert FieldParses(raw, SeriesField);
    assert Get(raw, Key(ModelNumberField)) == Entry(v, ModelNumberField);
    assert Get(raw, Key(ModelNameField)) == Entry(v, ModelNameField);
    assert Get(raw, Key(SeriesField)) == Entry(v, SeriesField);
  }

  /** The parsed release year, purchase date and flags of any accepted object whose
      entries are those of the form. */
  lemma ParsedDefaults(raw: RawObject, v: FormValues)
    requires Parse(raw).Success?
    requires forall f :: Get(raw, Key(f)) == Entry(v, f)
    ensures var d := Parse(raw).value;
      && d.releaseYear == v.releaseYear && d.purchaseDate == v.purchaseDate
      && d.owned == v.owned && d.exclusive == v.exclusive
  {
    SuccessMeansEveryFieldParses(raw);
    assert FieldParses(raw, ReleaseYearField) && FieldParses(raw, PurchaseDateField);
    assert FieldParses(raw, OwnedField) && FieldParses(raw, ExclusiveField);
    assert Get(raw, Key(ReleaseYearField)) == Entry(v, ReleaseYearField);
    assert Get(raw, Key(PurchaseDateField)) == Entry(v, PurchaseDateField);
    assert Get(raw, Key(OwnedField)) == Entry(v, OwnedField);
    assert Get(raw, Key(ExclusiveField)) == Entry(v, ExclusiveField);
  }

  /** An accepted object with the form's entries has an empty price and no notes: the form
      has no input for either. */
  lemma ParsedAbsent(raw: RawObject, v: FormValues)
    requires Parse(raw).Success?
    requires forall f :: Get(raw, Key(f)) == Entry(v, f)
    ensures Parse(raw).value.purchasePrice == "" && Parse(raw).value.notes == Missing
  {
    SuccessMeansEveryFieldParses(raw);
    assert FieldParses(raw, PurchasePriceField) && FieldParses(raw, NotesField);
    assert Get(raw, Key(PurchasePriceField)) == Entry(v, PurchasePriceField);
    assert Get(raw, Key(NotesField)) == Entry(v, NotesField);
  }

  /** The parsed grade and image URL of any accepted object whose entries are those of the
      form. */
  lemma ParsedGradeAndImage(raw: RawObject, v: FormValues)
    requires Parse(raw).Success?
    requires forall f :: Get(raw, Key(f)) == Entry(v, f)
    ensures var d := Parse(raw).value;
      && d.grade == v.grade
      && d.imageUrl == (if v.imageUrl.Some? then Value(v.imageUrl.value) else Null)
  {
    SuccessMeansEveryFieldParses(raw);
    assert FieldParses(raw, GradeField) && FieldParses(raw, ImageUrlField);
    assert Get(raw, Key(ImageUrlField)) == Entry(v, ImageUrlField);
    assert Get(raw, Key(GradeField)) == Entry(v, GradeField);
    GradeNameRoundTrip(v.grade);
  }

  /** The parsed subline of any accepted object whose entries are those of the form. */
  lemma ParsedSublineValue(raw: RawObject, v: FormValues)
    requires Parse(raw).Success?
    requires forall f :: Get(raw, Key(f)) == Entry(v, f)
    ensures Parse(raw).value.subline == (if v.subline.Chosen? then Value(v.subline.subline) else Null)
  {
    SuccessMeansEveryFieldParses(raw);
    assert FieldParses(raw, SublineField);
    assert Get(raw, Key(SublineField)) == Entry(v, SublineField);
    if v.subline.Chosen? {
      SublineNameRoundTrip(v.subline.subline);
    }
  }

  /** The record sent to the server. It has no brand: `data.brand` is undefined, since
      the parsed values carry none. */
  datatype SubmitRecord = SubmitRecord(
    grade: Grade,
    subline: Option<Subline>,
    modelNumber: string,
    modelName: string,
    series: Option<string>,
    releaseYear: Option<ParsedInt>,
    owned: bool,
    exclusive: bool,
    purchaseDate: Option<string>,
    imageUrl: Option<string>)

  /** `s.trim() || null`. */
  function TrimmedOrNull(s: string): Option<string> {
    if Trim(s) == "" then None else Some(Trim(s))
  }

  /** `submitData`, built from the parsed values. */
  function ToSubmitRecord(d: CreateGunplaInput): SubmitRecord {
    SubmitRecord(
      d.grade, ParsedSubline(d.subline), d.modelNumber, d.modelName,
      TrimmedOrNull(d.series), YearOf(d.releaseYear), d.owned, d.exclusive,
      EmptyAsNull(d.purchaseDate), ParsedImage(d.imageUrl))
  }

  /** `subline || null`. */
  function ParsedSubline(s: Nullish<Subline>): Option<Subline> {
    if s.Value? then Some(s.value) else None
  }

  /** `image_url?.trim() || null`. */
  function ParsedImage(u: Nullish<string>): Option<string> {
    if u.Value? then TrimmedOrNull(u.value) else None
  }

  /** `value ? parseInt(value) : null`. */
  function YearOf(s: string): Option<ParsedInt> {
    if s == "" then None else Some(ParseInt(s))
  }

  /** `value || null`. */
  function EmptyAsNull(s: string): Option<string> {
    if s == "" then None else Some(s)
  }

  /** The record an accepted form sends, in terms of its inputs. */
  function FormRecord(v: FormValues): SubmitRecord {
    SubmitRecord(
      v.grade, SublineOf(v.subline), v.modelNumber, v.modelName,
      TrimmedOrNull(v.series), YearOf(v.releaseYear), v.owned, v.exclusive,
      EmptyAsNull(v.purchaseDate), ImageOf(v.imageUrl))
  }

  function SublineOf(c: SublineChoice): Option<Subline> {
    if c.Chosen? then Some(c.subline) else None
  }

  function ImageOf(u: Option<string>): Option<string> {
    if u.Some? then TrimmedOrNull(u.value) else None
  }

  /** The record sent for an accepted form is its inputs' values, normalised. */
  lemma AcceptedFormRecord(v: FormValues)
    ensures Validate(v).Success? ==> ToSubmitRecord(Validate(v).value) == FormRecord(v)
  {
    ValidatedValues(v);
  }

  /** A trimmed-or-null value is null exactly for blank text, and otherwise is text that
      neither starts nor ends with white space. */
  lemma TrimmedOrNullSpec(s: string)
    ensures TrimmedOrNull(s).None? <==> AllWhiteSpace(s)
    ensures TrimmedOrNull(s).Some? ==> var t := TrimmedOrNull(s).value;
      t != "" && !IsWhiteSpace(t[0]) && !IsWhiteSpace(t[|t| - 1])
    ensures s != "" && !IsWhiteSpace(s[0]) && !IsWhiteSpace(s[|s| - 1]) ==> TrimmedOrNull(s) == Some(s)
  {
    TrimEmptyIff(s);
    TrimEdges(s);
    if s != "" && !IsWhiteSpace(s[0]) && !IsWhiteSpace(s[|s| - 1]) {
      TrimOfTrimmed(s);
    }
  }

  /** The record of an accepted form carries its grade, model number and name and flags as
      entered; a subline only when one is chosen; the series and image URL trimmed, and
      null when blank; the release year and purchase date null exactly when left empty. */
  lemma SubmitRecordNormalises(v: FormValues)
    ensures Validate(v).Success? ==> var r := ToSubmitRecord(Validate(v).value);
      && r.grade == v.grade && r.modelNumber == v.modelNumber && r.modelName == v.modelName
      && r.owned == v.owned && r.exclusive == v.exclusive
      && (r.subline.Some? <==> v.subline.Chosen?)
      && (r.subline.Some? ==> v.subline == Chosen(r.subline.value))
      && (r.series.None? <==> AllWhiteSpace(v.series))
      && (r.series.Some? ==> r.series.value == Trim(v.series) != "")
      && (r.releaseYear.None? <==> v.releaseYear == "")
      && (r.purchaseDate.None? <==> v.purchaseDate == "")
      && (r.imageUrl.None? <==> v.imageUrl.None? || AllWhiteSpace(v.imageUrl.value))
  {
    AcceptedFormRecord(v);
    FormRecordNormalises(v);
  }

  lemma FormRecordNormalises(v: FormValues)
    ensures var r := FormRecord(v);
      && (r.subline.Some? <==> v.subline.Chosen?)
      && (r.subline.Some? ==> v.subline == Chosen(r.subline.value))
      && (r.series.None? <==> AllWhiteSpace(v.series))
      && (r.series.Some? ==> r.series.value == Trim(v.series) != "")
      && (r.releaseYear.None? <==> v.releaseYear == "")
      && (r.purchaseDate.None? <==> v.purchaseDate == "")
      && (r.imageUrl.None? <==> v.imageUrl.None? || AllWhiteSpace(v.imageUrl.value))
  {
    TrimmedOrNullBlank(v.series);
    if v.imageUrl.Some? {
      TrimmedOrNullBlank(v.imageUrl.value);
    }
  }

  lemma TrimmedOrNullBlank(s: string)
    ensures TrimmedOrNull(s).None? <==> AllWhiteSpace(s)
    ensures TrimmedOrNull(s).Some? ==> TrimmedOrNull(s).value == Trim(s) != ""
  {
    TrimEmptyIff(s);
  }

  /** The model number, model name and series of a kit are within the schema's lengths. */
  predicate WithinSchema(k: Kit) {
    1 <= |k.modelNumber| <= 50 && 1 <= |k.modelName| <= 255 && |OrEmpty(k.series)| <= 100
  }

  /** Submitting an existing kit's untouched form passes validation exactly when the kit's
      texts are within the schema's lengths, and then sends back its grade, subline, model
      number and name, release year and flags; its series, purchase date and image URL
      whenever they are non-empty and carry no surrounding white space. */
  lemma ResubmitDefaultsRoundTrip(k: Kit)
    ensures Validate(DefaultValues(Some(k))).Success? <==> WithinSchema(k)
    ensures Validate(DefaultValues(Some(k))).Success? ==>
      var r := ToSubmitRecord(Validate(DefaultValues(Some(k))).value);
      && r.grade == k.grade && r.subline == k.subline
      && r.modelNumber == k.modelNumber && r.modelName == k.modelName
      && r.releaseYear == (if k.releaseYear.Some? then Some(Int(k.releaseYear.value)) else None)
      && r.owned == k.owned && r.exclusive == k.exclusive
      && (k.purchaseDate != Some("") ==> r.purchaseDate == k.purchaseDate)
      && (Untrimmable(k.series) ==> r.series == k.series)
      && (Untrimmable(k.imageUrl) ==> r.imageUrl == k.imageUrl)
  {
    ResubmitAccepted(k);
    var v := DefaultValues(Some(k));
    AcceptedFormRecord(v);
    ResubmitKeepsPlainFields(k);
    YearRoundTrip(k.releaseYear);
    ResubmitKeepsText(k);
  }

  lemma ResubmitAccepted(k: Kit)
    ensures Validate(DefaultValues(Some(k))).Success? <==> WithinSchema(k)
  {
    var v := DefaultValues(Some(k));
    assert v.subline == ChoiceOf(k.subline) && v.series == OrEmpty(k.series);
    ValidateIff(v);
  }

  lemma ResubmitKeepsPlainFields(k: Kit)
    ensures var r := FormRecord(DefaultValues(Some(k)));
      && r.grade == k.grade && r.subline == k.subline
      && r.modelNumber == k.modelNumber && r.modelName == k.modelName
      && r.releaseYear == YearOf(YearText(k.releaseYear))
      && r.owned == k.owned && r.exclusive == k.exclusive
  {
    var v := DefaultValues(Some(k));
    assert v.subline == ChoiceOf(k.subline) && v.releaseYear == YearText(k.releaseYear);
  }

  lemma ResubmitKeepsText(k: Kit)
    ensures var r := FormRecord(DefaultValues(Some(k)));
      && (k.purchaseDate != Some("") ==> r.purchaseDate == k.purchaseDate)
      && (Untrimmable(k.series) ==> r.series == k.series)
      && (Untrimmable(k.imageUrl) ==> r.imageUrl == k.imageUrl)
  {
    var v := DefaultValues(Some(k));
    var r := FormRecord(v);
    assert r.purchaseDate == EmptyAsNull(OrEmpty(k.purchaseDate));
    assert r.series == TrimmedOrNull(OrEmpty(k.series));
    assert r.imageUrl == TrimmedOrNull(OrEmpty(k.imageUrl));
    if Untrimmable(k.series) {
      UntrimmableKept(k.series);
    }
    if Untrimmable(k.imageUrl) {
      UntrimmableKept(k.imageUrl);
    }
  }

  /** A stored release year shows as its decimal text and parses back to itself. */
  lemma YearRoundTrip(year: Option<int>)
    ensures YearOf(YearText(year)) == if year.Some? then Some(Int(year.value)) else None
  {
    if year.Some? {
      ParseIntOfIntToString(year.value);
    }
  }

  lemma UntrimmableKept(s: Option<string>)
    requires Untrimmable(s)
    ensures TrimmedOrNull(OrEmpty(s)) == s
  {
    TrimmedOrNullSpec(s.value);
  }

  /** Present, non-empty, and without white space at either end. */
  predicate Untrimmable(s: Option<string>) {
    s.Some? && s.value != "" && !IsWhiteSpace(s.value[0]) && !IsWhiteSpace(s.value[|s.value| - 1])
  }

  datatype SubmitAction = Create | Update(id: string)

  /** Update the edited kit when it has an id, and create a kit otherwise. */
  function ChooseAction(kit: Option<Kit>): (r: SubmitAction)
    ensures r.Update? <==> kit.Some? && kit.value.id != ""
    ensures r.Update? ==> r.id == kit.value.id
  {
    if kit.Some? && kit.value.id != "" then Update(kit.value.id) else Create
  }

  /** The grade selector is on screen only for Bandai. */
  predicate ShowGradeSelect(brand: Brand) {
    brand == Bandai
  }

  /** The subline selector is on screen only for Bandai kits of grade HG. */
  predicate ShowSublineSelect(brand: Brand, grade: Grade) {
    brand == Bandai && grade == HG
  }

  /** Whenever the subline selector shows, so does the grade selector, with HG chosen. */
  lemma SublineSelectNeedsGradeSelect(brand: Brand, grade: Grade)
    ensures ShowSublineSelect(brand, grade) <==> ShowGradeSelect(brand) && grade == HG
  {
  }

  /** The preview shows the image URL as typed when it is not blank. */
  function ImagePreview(imageUrl: Option<string>): (r: Option<string>)
    ensures r.Some? ==> r == imageUrl
  {
    if imageUrl.Some? && Trim(imageUrl.value) != "" then imageUrl else None
  }

  /** For an accepted form, a preview shows exactly when the record sent carries an image
      URL. */
  lemma PreviewIffSubmittedImage(v: FormValues)
    ensures Validate(v).Success? ==>
      (ImagePreview(v.imageUrl).Some? <==> ToSubmitRecord(Validate(v).value).imageUrl.Some?)
  {
    AcceptedFormRecord(v);
  }

  /** What the server call threw: an `Error` with its message, or some other value. */
  datatype Thrown = ErrorObject(message: string) | OtherValue

  const FallbackErrorMessage := "An error occurred"

  /** A call to the server: create or update, with the parsed values whose record it
      sends. */
  datatype Request = Request(action: SubmitAction, data: CreateGunplaInput) {
    /** `submitData`: the record the call sends. */
    function Record(): SubmitRecord {
      ToSubmitRecord(data)
    }
  }

  class FormSubmission {
    var error: Option<string>
    var isSubmitting: bool
    /** Whether the form has sent the user back to the dashboard. */
    var redirected: bool
    /** The inputs the schema refused at the last attempt, each shown with its message. */
    var fieldErrors: seq<Field>

    constructor()
      ensures error == None && !isSubmitting && !redirected && fieldErrors == []
    {
      error := None;
      isSubmitting := false;
      redirected := false;
      fieldErrors := [];
    }

    /** `handleSubmit(onSubmitForm)` on the values `v` of the form for `kit`. Values the
        schema refuses send nothing and mark the refused inputs. Accepted values run
        `onSubmitForm` on the parsed values: `thrown` is what the server call threw,
        `None` when it succeeded. On success the form stays in its submitting state and
        goes back to the dashboard; on failure it shows the error and can be submitted
        again. */
    method Submit(kit: Option<Kit>, v: FormValues, thrown: Option<Thrown>)
      returns (request: Option<Request>)
      modifies this
      ensures Validate(v).Failure? ==>
        && request == None && fieldErrors == Validate(v).error
        && error == old(error) && isSubmitting == old(isSubmitting) && redirected == old(redirected)
      ensures Validate(v).Success? ==>
        && request == Some(Request(ChooseAction(kit), Validate(v).value))
        && fieldErrors == []
        && (thrown.None? ==> error == None && isSubmitting && redirected)
        && (thrown.Some? ==>
              && error == Some(if thrown.value.ErrorObject? then thrown.value.message else FallbackErrorMessage)
              && !isSubmitting && redirected == old(redirected))
    {
      var parsed := Validate(v);
      if parsed.Failure? {
        fieldErrors := parsed.error;
        request := None;
      } else {
        request := Some(Request(ChooseAction(kit), parsed.value));
        fieldErrors := [];
        if thrown.None? {
          error := None;
          isSubmitting := true;
          redirected := true;
        } else {
          error := Some(if thrown.value.ErrorObject? then thrown.value.message else FallbackErrorMessage);
          isSubmitting := false;
        }
      }
    }
  }
}
