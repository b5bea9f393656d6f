/** The create-kit schema: which input objects it accepts, what it makes of them (with its
    defaults filled in and unknown keys dropped), and which fields it reports when it
    refuses one. */
module Schemas {
  import opened Wrappers
  import opened Kits

  /** A value of the input object. Arrays and objects are `Other`. */
  datatype Json = JNull | JBool(b: bool) | JNumber(n: int) | JString(s: string) | Other

  /** An input object; a key that is absent and a key set to `undefined` are the same. */
  type RawObject = map<string, Json>

  /** The fields of the schema. */
  datatype Field =
    | GradeField | SublineField | ModelNumberField | ModelNameField | SeriesField
    | ReleaseYearField | OwnedField | ExclusiveField | PurchaseDateField | PurchasePriceField
    | NotesField | ImageUrlField

  /** The key each field is read from. */
  function Key(f: Field): string {
    match f
    case GradeField => "grade"
    case SublineField => "subline"
    case ModelNumberField => "model_number"
    case ModelNameField => "model_name"
    case SeriesField => "series"
    case ReleaseYearField => "release_year"
    case OwnedField => "owned"
    case ExclusiveField => "exclusive"
    case PurchaseDateField => "purchase_date"
    case PurchasePriceField => "purchase_price"
    case NotesField => "notes"
    case ImageUrlField => "image_url"
  }

  /** The fields in the order the schema declares them. */
  const Fields: seq<Field> := [GradeField, SublineField, ModelNumberField, ModelNameField,
    SeriesField, ReleaseYearField, OwnedField, ExclusiveField, PurchaseDateField,
    PurchasePriceField, NotesField, ImageUrlField]

  /** Every field is in the list. */
  lemma FieldsDeclared()
    ensures forall f :: f in Fields
  {
    forall f
      ensures f in Fields
    {
      match f
      case GradeField => assert Fields[0] == f;
      case SublineField => assert Fields[1] == f;
      case ModelNumberField => assert Fields[2] == f;
      case ModelNameField => assert Fields[3] == f;
      case SeriesField => assert Fields[4] == f;
      case ReleaseYearField => assert Fields[5] == f;
      case OwnedField => assert Fields[6] == f;
      case ExclusiveField => assert Fields[7] == f;
      case PurchaseDateField => assert Fields[8] == f;
      case PurchasePriceField => assert Fields[9] == f;
      case NotesField => assert Fields[10] == f;
      case ImageUrlField => assert Fields[11] == f;
    }
  }

  /** `gunplaGradeEnum` and `gunplaSublineEnum` as written. */
  const GradeNames: seq<string> := ["HG", "RG", "MG", "PG", "EG", "SD", "BB", "RE/100", "FM", "NG"]
  const SublineNames: seq<string> := ["HGUC", "HGIBO", "HGCE", "HG00", "HGAC", "HGAGE", "HGBF", "HGGTO", "HGBC"]

  /** The enumerations of the schema are those of the database. */
  lemma EnumsMatchDatabase(s: string)
    ensures GradeFromName(s).Some? <==> s in GradeNames
    ensures SublineFromName(s).Some? <==> s in SublineNames
  {
    if s in GradeNames {
      var i :| 0 <= i < |GradeNames| && GradeNames[i] == s;
      assert i < 10;
    }
  }

  /** A successful parse. */
  datatype CreateGunplaInput = CreateGunplaInput(
    grade: Grade,
    subline: Nullish<Subline>,
    modelNumber: string,
    modelName: string,
    series: string,
    releaseYear: string,
    owned: bool,
    exclusive: bool,
    purchaseDate: string,
    purchasePrice: string,
    notes: Nullish<string>,
    imageUrl: Nullish<string>)

  function Get(raw: RawObject, key: string): Option<Json> {
    if key in raw then Some(raw[key]) else None
  }

  /** `gunplaGradeEnum`: required. */
  function ParseGrade(v: Option<Json>): Option<Grade> {
    if v.Some? && v.value.JString? then GradeFromName(v.value.s) else None
  }

  /** `gunplaSublineEnum.nullable().optional()`. */
  function ParseSubline(v: Option<Json>): Option<Nullish<Subline>> {
    match v
    case None => Some(Missing)
    case Some(JNull) => Some(Null)
    case Some(JString(s)) => if SublineFromName(s).Some? then Some(Value(SublineFromName(s).value)) else None
    case Some(_) => None
  }

  /** `z.string().min(minLength).max(maxLength)`: required. */
  function ParseText(v: Option<Json>, minLength: nat, maxLength: nat): Option<string> {
    if v.Some? && v.value.JString? && minLength <= |v.value.s| <= maxLength then Some(v.value.s) else None
  }

  /** `z.string()`, with `.max(maxLength)` when one is given, then `.optional().default('')`. */
  function ParseDefaultedText(v: Option<Json>, maxLength: Option<nat>): Option<string> {
    match v
    case None => Some("")
    case Some(JString(s)) => if maxLength.None? || |s| <= maxLength.value then Some(s) else None
    case Some(_) => None
  }

  /** `z.boolean()`, with a default when one is given. */
  function ParseBool(v: Option<Json>, default: Option<bool>): Option<bool> {
    match v
    case None => default
    case Some(JBool(b)) => Some(b)
    case Some(_) => None
  }

  /** `z.string().optional().nullable()`. */
  function ParseNullableText(v: Option<Json>): Option<Nullish<string>> {
    match v
    case None => Some(Missing)
    case Some(JNull) => Some(Null)
    case Some(JString(s)) => Some(Value(s))
    case Some(_) => None
  }

  /** Whether the value under a field's key passes that field's parser. */
  predicate FieldParses(raw: RawObject, f: Field) {
    var v := Get(raw, Key(f));
    match f
    case GradeField => ParseGrade(v).Some?
    case SublineField => ParseSubline(v).Some?
    case ModelNumberField => ParseText(v, 1, 50).Some?
    case ModelNameField => ParseText(v, 1, 255).Some?
    case SeriesField => ParseDefaultedText(v, Some(100)).Some?
    case OwnedField => ParseBool(v, None).Some?
    case ExclusiveField => ParseBool(v, Some(false)).Some?
    case NotesField => ParseNullableText(v).Some?
    case ImageUrlField => ParseNullableText(v).Some?
    case ReleaseYearField => ParseDefaultedText(v, None).Some?
    case PurchaseDateField => ParseDefaultedText(v, None).Some?
    case PurchasePriceField => ParseDefaultedText(v, None).Some?
  }

  /** The fields among `fields` whose values fail their parsers, in order. */
  function FailingFields(raw: RawObject, fields: seq<Field>): (r: seq<Field>)
    ensures forall f :: f in r <==> f in fields && !FieldParses(raw, f)
  {
    if fields == [] then []
    else (if FieldParses(raw, fields[0]) then [] else [fields[0]]) + FailingFields(raw, fields[1..])
  }

  /** `createGunplaSchema.safeParse`: the parsed object, or the fields whose values are
      refused, in schema order. Keys the schema does not declare are dropped. */
  function Parse(raw: RawObject): Result<CreateGunplaInput, seq<Field>> {
    var issues := FailingFields(raw, Fields);
    if issues == [] then
      FieldsDeclared();
      Success(Build(raw))
    else
      Failure(issues)
  }

  /** The parsed object, once every field's parser passes. */
  function Build(raw: RawObject): CreateGunplaInput
    requires forall f :: FieldParses(raw, f)
  {
    assert FieldParses(raw, GradeField) && FieldParses(raw, SublineField);
    assert FieldParses(raw, ModelNumberField) && FieldParses(raw, ModelNameField);
    assert FieldParses(raw, SeriesField) && FieldParses(raw, ReleaseYearField);
    assert FieldParses(raw, OwnedField) && FieldParses(raw, ExclusiveField);
    assert FieldParses(raw, PurchaseDateField) && FieldParses(raw, PurchasePriceField);
    assert FieldParses(raw, NotesField) && FieldParses(raw, ImageUrlField);
    CreateGunplaInput(
      ParseGrade(Get(raw, Key(GradeField))).value,
      ParseSubline(Get(raw, Key(SublineField))).value,
      ParseText(Get(raw, Key(ModelNumberField)), 1, 50).value,
      ParseText(Get(raw, Key(ModelNameField)), 1, 255).value,
      ParseDefaultedText(Get(raw, Key(SeriesField)), Some(100)).value,
      ParseDefaultedText(Get(raw, Key(ReleaseYearField)), None).value,
      ParseBool(Get(raw, Key(OwnedField)), None).value,
      ParseBool(Get(raw, Key(ExclusiveField)), Some(false)).value,
      ParseDefaultedText(Get(raw, Key(PurchaseDateField)), None).value,
      ParseDefaultedText(Get(raw, Key(PurchasePriceField)), None).value,
      ParseNullableText(Get(raw, Key(NotesField))).value,
      ParseNullableText(Get(raw, Key(ImageUrlField))).value)
  }

  predicate IsText(raw: RawObject, key: string) {
    key in raw && raw[key].JString?
  }

  /** What the schema asks of the value under each field's key, stated on the object. */
  predicate FieldConforms(raw: RawObject, f: Field) {
    var key := Key(f);
    match f
    case GradeField => IsText(raw, key) && raw[key].s in GradeNames
    case SublineField => key !in raw || raw[key] == JNull || (IsText(raw, key) && raw[key].s in SublineNames)
    case ModelNumberField => IsText(raw, key) && 1 <= |raw[key].s| <= 50
    case ModelNameField => IsText(raw, key) && 1 <= |raw[key].s| <= 255
    case SeriesField => key !in raw || (IsText(raw, key) && |raw[key].s| <= 100)
    case OwnedField => key in raw && raw[key].JBool?
    case ExclusiveField => key !in raw || raw[key].JBool?
    case NotesField => key !in raw || raw[key] == JNull || IsText(raw, key)
    case ImageUrlField => key !in raw || raw[key] == JNull || IsText(raw, key)
    case ReleaseYearField => key !in raw || IsText(raw, key)
    case PurchaseDateField => key !in raw || IsText(raw, key)
    case PurchasePriceField => key !in raw || IsText(raw, key)
  }

  /** Each field's parser accepts exactly the values the schema allows under its key. */
  lemma FieldParsesIff(raw: RawObject, f: Field)
    ensures FieldParses(raw, f) <==> FieldConforms(raw, f)
  {
    var key := Key(f);
    if key in raw && raw[key].JString? {
      EnumsMatchDatabase(raw[key].s);
    }
  }

  /** The parse succeeds exactly when every field's parser passes. */
  lemma SuccessMeansEveryFieldParses(raw: RawObject)
    ensures Parse(raw).Success? <==> forall f :: FieldParses(raw, f)
  {
    FieldsDeclared();
    var issues := FailingFields(raw, Fields);
    if issues != [] {
      assert issues[0] in issues;
    }
  }

  /** The parse fails exactly on the fields whose values do not conform, and succeeds
      when every field's value does. */
  lemma ParseReportsNonConformingFields(raw: RawObject)
    ensures Parse(raw).Success? <==> forall f :: FieldConforms(raw, f)
    ensures Parse(raw).Failure? ==> forall f :: f in Parse(raw).error <==> !FieldConforms(raw, f)
  {
    forall f
      ensures FieldParses(raw, f) <==> FieldConforms(raw, f)
    {
      FieldParsesIff(raw, f);
    }
    FieldsDeclared();
    SuccessMeansEveryFieldParses(raw);
  }

  /** A successful parse keeps the values given, within their length limits, and fills
      in the defaults: "" for an absent series, release year, purchase date or price,
      `false` for an absent exclusive flag; a subline, notes or image URL stays absent,
      null or the value given. */
  lemma ParsedValues(raw: RawObject)
    ensures Parse(raw).Success? ==> var r := Parse(raw).value;
      && IsText(raw, "grade") && GradeName(r.grade) == raw["grade"].s
      && IsText(raw, "model_number") && r.modelNumber == raw["model_number"].s && 1 <= |r.modelNumber| <= 50
      && IsText(raw, "model_name") && r.modelName == raw["model_name"].s && 1 <= |r.modelName| <= 255
      && |r.series| <= 100
      && r.series == (if IsText(raw, "series") then raw["series"].s else "")
      && r.releaseYear == (if IsText(raw, "release_year") then raw["release_year"].s else "")
      && "owned" in raw && raw["owned"].JBool? && r.owned == raw["owned"].b
      && r.exclusive == ("exclusive" in raw && raw["exclusive"].JBool? && raw["exclusive"].b)
      && r.purchaseDate == (if IsText(raw, "purchase_date") then raw["purchase_date"].s else "")
      && r.purchasePrice == (if IsText(raw, "purchase_price") then raw["purchase_price"].s else "")
    ensures Parse(raw).Success? ==> var r := Parse(raw).value;
      && (r.subline.Missing? <==> "subline" !in raw)
      && (r.subline.Null? <==> "subline" in raw && raw["subline"] == JNull)
      && (r.subline.Value? ==> IsText(raw, "subline") && SublineName(r.subline.value) == raw["subline"].s)
      && r.notes == NullableText(raw, "notes")
      && r.imageUrl == NullableText(raw, "image_url")
  {
    SuccessMeansEveryFieldParses(raw);
    if Parse(raw).Success? {
      RequiredValues(raw);
      OptionalValues(raw);
    }
  }

  /** What `z.string().optional().nullable()` makes of a conforming value. */
  function NullableText(raw: RawObject, key: string): Nullish<string> {
    if key !in raw then Missing
    else if raw[key].JString? then Value(raw[key].s)
    else Null
  }

  lemma RequiredValues(raw: RawObject)
    requires Parse(raw).Success?
    ensures var r := Parse(raw).value;
      && IsText(raw, "grade") && GradeName(r.grade) == raw["grade"].s
      && IsText(raw, "model_number") && r.modelNumber == raw["model_number"].s && 1 <= |r.modelNumber| <= 50
      && IsText(raw, "model_name") && r.modelName == raw["model_name"].s && 1 <= |r.modelName| <= 255
      && |r.series| <= 100
      && r.series == (if IsText(raw, "series") then raw["series"].s else "")
      && r.releaseYear == (if IsText(raw, "release_year") then raw["release_year"].s else "")
      && "owned" in raw && raw["owned"].JBool? && r.owned == raw["owned"].b
      && r.exclusive == ("exclusive" in raw && raw["exclusive"].JBool? && raw["exclusive"].b)
      && r.purchaseDate == (if IsText(raw, "purchase_date") then raw["purchase_date"].s else "")
      && r.purchasePrice == (if IsText(raw, "purchase_price") then raw["purchase_price"].s else "")
  {
    SuccessMeansEveryFieldParses(raw);
    assert FieldParses(raw, GradeField) && FieldParses(raw, ModelNumberField);
    assert FieldParses(raw, ModelNameField) && FieldParses(raw, SeriesField);
    assert FieldParses(raw, ReleaseYearField) && FieldParses(raw, OwnedField);
    assert FieldParses(raw, ExclusiveField) && FieldParses(raw, PurchaseDateField);
    assert FieldParses(raw, PurchasePriceField);
  }

  lemma OptionalValues(raw: RawObject)
    requires Parse(raw).Success?
    ensures var r := Parse(raw).value;
      && (r.subline.Missing? <==> "subline" !in raw)
      && (r.subline.Null? <==> "subline" in raw && raw["subline"] == JNull)
      && (r.subline.Value? ==> IsText(raw, "subline") && SublineName(r.subline.value) == raw["subline"].s)
      && r.notes == NullableText(raw, "notes")
      && r.imageUrl == NullableText(raw, "image_url")
  {
    SuccessMeansEveryFieldParses(raw);
    assert FieldParses(raw, SublineField) && FieldParses(raw, NotesField);
    assert FieldParses(raw, ImageUrlField);
  }

  /** Grade may never be left out. */
  lemma GradeRequired(raw: RawObject)
    requires "grade" !in raw
    ensures Parse(raw).Failure? && GradeField in Parse(raw).error
  {
    FieldsDeclared();
    assert !FieldParses(raw, GradeField);
  }

  /** Keys the schema does not declare, such as "brand", make no difference. */
  lemma UndeclaredKeysIgnored(raw: RawObject, key: string, v: Json)
    requires forall f :: Key(f) != key
    ensures Parse(raw[key := v]) == Parse(raw)
  {
    var raw' := raw[key := v];
    forall f
      ensures Get(raw', Key(f)) == Get(raw, Key(f))
    {
      assert Key(f) != key;
    }
    forall f
      ensures FieldParses(raw', f) == FieldParses(raw, f)
    {
      FieldParsesReadsOnlyItsKey(raw', raw, f);
    }
    FailingFieldsAgree(raw', raw, Fields);
  }

  /** The form's brand is not a key of the schema: whatever it holds, the parse is the
      same as without it. */
  lemma BrandDropped(raw: RawObject, v: Json)
    ensures Parse(raw["brand" := v]) == Parse(raw)
  {
    forall f
      ensures Key(f) != "brand"
    {
    }
    UndeclaredKeysIgnored(raw, "brand", v);
  }

  lemma FieldParsesReadsOnlyItsKey(raw1: RawObject, raw2: RawObject, f: Field)
    requires Get(raw1, Key(f)) == Get(raw2, Key(f))
    ensures FieldParses(raw1, f) == FieldParses(raw2, f)
  {
  }

  lemma {:induction false} FailingFieldsAgree(raw1: RawObject, raw2: RawObject, fields: seq<Field>)
    requires forall f :: FieldParses(raw1, f) == FieldParses(raw2, f)
    ensures FailingFields(raw1, fields) == FailingFields(raw2, fields)
  {
    if fields != [] {
      FailingFieldsAgree(raw1, raw2, fields[1..]);
    }
  }
}
