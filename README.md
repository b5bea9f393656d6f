# Gunpla Tracker — a verified model of the collection dashboard and kit form

Gunpla Tracker keeps a personal collection of plastic model kits ("Gunpla"). Each kit
has a brand, a grade (HG, RG, MG, …), an optional HG subline, a model number and name,
an optional series, release year and purchase data, ownership and exclusive-edition
flags, and an optional image. This project models, in Dafny, the parts of the
application that decide what the user sees and what gets stored:

- **The dashboard** (`Dashboard`, `DashboardFilter`, `DashboardSort`, `Pagination`,
  `PageNumbers`, `DashboardStats` and `DashboardRow`).
  - Its state is a class whose methods are the buttons, selectors and server answers.
  - It filters by search text, brand, grade, subline and edition.
  - It sorts the list by model number with numeric collation, by model name, or by
    price, in either order.
  - It shows pages of twenty kits, with a window of page buttons.
  - It computes the owned, wishlist and total-spent statistics, and the texts of the
    table's name and grade cells.
- **The kit form** (`GunplaForm`, `Schemas` and `ImageUpload`).
  - The form fills in default values from a kit. On submission its values go through
    `createGunplaSchema` first: refused values send nothing and mark the refused inputs,
    and accepted ones are turned into the record it submits, choosing between update and
    create.
  - As written, the "No subline" option (value `""`) is refused by the schema, so a form
    with that option chosen cannot be submitted (`GunplaForm.NoSublineRefused`).
  - The schema has no `brand` key, so the parsed values carry no brand and the record
    sent has none, whatever brand is chosen (`GunplaForm.BrandIgnored`).
  - It decides when the grade and subline selectors and the image preview show.
  - The image field checks file types and sizes.
  - `createGunplaSchema` is modelled as a parser over input objects. It either returns
    the parsed values or lists every field it refuses.
- **Images** (`ImageOptimization` and `ImageStats`).
  - The three compression presets, the height of a resized canvas, and the result of
    generating the three sizes.
  - The fallback order of image URLs by display context, and the bytes saved.
  - The collection-wide storage and bandwidth estimates.
- **The kit card** (`KitCard`): the prefix, title, image text and badge it derives from
  a kit.

Supporting modules:

- `Text`: trimming, ASCII lower-casing, substring search, decimal printing and
  `parseInt`.
- `Seqs`: filtering.
- `Sorting`: a stable insertion sort, which is proved sorted, a permutation and stable,
  as `Array.prototype.sort` is.
- `Wrappers` and `Arithmetic`.

## How the model is built

- The dashboard component is modelled as a class, `Dashboard.DashboardState`, whose
  fields are the component's state variables.
  - Each user action is a method that updates those fields. The effects the action
    triggers run inside the same method: recomputing the list and going back to page 1,
    clearing the subline when the grade is not HG, and starting a load when ownership
    changes.
  - Each method states its whole new state against the old one.
  - Each method preserves `Valid()`, which has three parts:
    - the list shown is `View(kits, selections)`;
    - a subline is selected only under grade HG;
    - the current page exists.
  - `View` in turn is proved to list exactly the matching kits, sorted by the chosen
    comparator.
- `getPageNumbers` pushes tokens in loops. It is a method proved equal to the function
  `PageWindow`, and the window's shape is proved about that function.
- The form submission and the image-upload field also change state. They are modelled as
  small classes (`GunplaForm.FormSubmission` and `ImageUpload.UploadField`).
- Everything else in the source is expression code. It is modelled as functions, with
  lemmas relating each one to a partner: its inverse, a declarative statement, or an
  invariant.
- Prices are whole cents, so the total spent and the price sort are exact integer
  arithmetic.
- `toFixed(2)` figures in gibibytes are hundredths, rounded half up. Byte estimates are
  kept in bytes.

## Model

| member | source | states |
|---|---|---|
| Kits.GradeFromName | src/types/database.types.ts:121 | a recognised name is exactly the name of the grade returned |
| Kits.GradeNameRoundTrip | src/types/database.types.ts:121 | every grade is recognised from its own name, so grade names and grades correspond one to one |
| Kits.SublineFromName | src/types/database.types.ts:122 | a recognised name is exactly the name of the subline returned |
| Kits.SublineNameRoundTrip | src/types/database.types.ts:122 | every subline is recognised from its own name |
| Kits.NamesAreWords | src/types/database.types.ts:120-122 | brand, grade and subline names are non-empty, and grade and subline names contain no space |
| DashboardFilter.FilterKitsSpec | src/components/dashboard-content.tsx:82-107 | the filtered list holds a kit iff the kit is loaded and matches the search, brand, grade, subline and edition selections, and keeps the loaded order |
| DashboardFilter.MatchesSearchIff | src/components/dashboard-content.tsx:83-89 | a kit matches the search iff the lower-cased query occurs in the lower-cased model name, model number, series (when present), subline (when present) or brand name |
| DashboardFilter.SearchIgnoresQueryCase | src/components/dashboard-content.tsx:83 | a query and its lower-cased form match the same kits |
| DashboardFilter.EmptySearchMatches | src/components/dashboard-content.tsx:83-89 | the empty query matches every kit |
| DashboardFilter.NoFiltersKeepAll | src/components/dashboard-content.tsx:40-46 | with the initial selections the filtered list is the whole loaded list |
| DashboardFilter.SelectBrandNarrows | src/components/dashboard-content.tsx:91 | choosing one brand gives the "All Brands" list restricted to that brand, in the same order |
| DashboardStats.OwnershipPartition | src/lib/gunpla-actions.ts:124-128 | "All" fetches every kit of the user; every kit is fetched by exactly one of "Owned" and "Wishlist", and their sizes add up to the whole |
| DashboardStats.OwnedWishlistSplit | src/components/dashboard-content.tsx:203-204 | the owned count and the wishlist count add up to the number of loaded kits |
| DashboardStats.TotalSpentIsSumOfPrices | src/components/dashboard-content.tsx:205-214 | leaving out kits with no price or a zero price does not change the sum, so the total spent is the sum of all prices |
| DashboardStats.TotalSpentNonNegative | src/components/dashboard-content.tsx:205-214 | when no price is negative the total spent is not negative |
| DashboardSort.ComparatorPreorder | src/components/dashboard-content.tsx:111-137 | the comparator for every sort key and order is a total preorder, so the sort is well defined |
| DashboardSort.NumericCollationExample | src/components/dashboard-content.tsx:115-119 | under numeric collation model number "2" sorts before "10" |
| DashboardSort.NameCollationExample | src/components/dashboard-content.tsx:121 | model names compare ignoring case first: "Zaku" sorts after "gouf" |
| DashboardSort.SortKitsSpec | src/components/dashboard-content.tsx:110-138 | the sorted list is a permutation of the filtered list, ordered by the chosen comparator, with tied kits in their original order; with no sort key the list is unchanged |
| DashboardSort.DescendingIsReversedAscending | src/components/dashboard-content.tsx:136 | a list is in descending order iff its reverse is in ascending order |
| DashboardSort.PriceAscending | src/components/dashboard-content.tsx:122-133 | sorting by price low to high lists prices in non-decreasing order, with a missing price counting as 0 |
| Sorting.SortSorted | src/components/dashboard-content.tsx:111 | the sort orders its input by any total-preorder comparator |
| Sorting.SortStable | src/components/dashboard-content.tsx:111 | the sort is stable: elements the comparator ties keep their relative order |
| Pagination.TotalPagesIsCeiling | src/components/dashboard-content.tsx:154 | the page count is the least number of twenty-kit pages holding the list, and is 0 only for an empty list |
| Pagination.SliceIndex | src/components/dashboard-content.tsx:159 | a slice bound is clamped to the list |
| Pagination.PageContents | src/components/dashboard-content.tsx:155-159 | page p holds list positions (p-1)*20 up to p*20 or up to the end; it is never empty, and every page but the last is full |
| Pagination.PagesPartitionList | src/components/dashboard-content.tsx:153-159 | reading the pages in order reads the whole list exactly once |
| Pagination.ShownRangeMatchesPage | src/components/dashboard-content.tsx:530-534 | the "Showing a to b of n" numbers are exactly the positions, counted from 1, of the kits on the page |
| PageNumbers.Range | src/components/dashboard-content.tsx:168-170 | the page numbers a to b, in order |
| PageNumbers.GetPageNumbers | src/components/dashboard-content.tsx:162-200 | the loops push exactly the window `PageWindow` describes |
| PageNumbers.SmallWindowListsEveryPage | src/components/dashboard-content.tsx:166-170 | up to seven pages, every page is listed, in order |
| PageNumbers.LargeWindowShape | src/components/dashboard-content.tsx:171-197 | beyond seven pages the window has seven tokens, starts at page 1, ends at the last page, has increasing existing page numbers, and has an ellipsis exactly where pages are skipped |
| PageNumbers.WindowNumbersWithin | src/components/dashboard-content.tsx:162-200 | every numbered button names an existing page |
| PageNumbers.CurrentPageShown | src/components/dashboard-content.tsx:162-200 | the current page always has a button |
| PageNumbers.MiddleWindowExample | src/components/dashboard-content.tsx:188-196 | ten pages with page 5 current show 1 … 4 5 6 … 10 |
| DashboardRow.NameCellEndsWithName | src/components/dashboard-content.tsx:657-660 | the name cell ends with the model name and is longer than it exactly for kits not made by Bandai |
| DashboardRow.GradeNamesAreNotSublines | src/components/dashboard-content.tsx:672-676 | no grade name is a subline name or the empty-cell placeholder |
| DashboardRow.GradeCellSpec | src/components/dashboard-content.tsx:672-676 | the grade cell is the placeholder iff the brand is not Bandai; it names a subline iff the kit is a Bandai HG with a subline, and then names its own subline; otherwise a Bandai kit's cell names its grade |
| Dashboard.ViewSpec | src/components/dashboard-content.tsx:81-151 | the table's list holds exactly the matching kits, each as often as among them; without a sort key it keeps the loaded order, and with one it is sorted |
| Dashboard.DashboardState.constructor | src/components/dashboard-content.tsx:35-57 | the initial state: nothing loaded, loading all kits, no selections, page 1 |
| Dashboard.DashboardState.Refresh | src/components/dashboard-content.tsx:140-151 | the list becomes the view of the loaded kits under the selections and the page goes back to 1, nothing else changing |
| Dashboard.DashboardState.SetOwnership | src/components/dashboard-content.tsx:55-64 | a new ownership choice starts a load and clears the error; choosing the current one changes nothing |
| Dashboard.DashboardState.LoadSucceeded | src/components/dashboard-content.tsx:65-70 | the fetched kits become the loaded kits, the list is recomputed and loading ends, whether or not a load is still marked as running (answers to overlapping loads apply in arrival order) |
| Dashboard.DashboardState.LoadFailed | src/components/dashboard-content.tsx:67-70 | the error message, or "Failed to load kits", is shown and loading ends, the kits unchanged, in any state (answers to overlapping loads apply in arrival order) |
| Dashboard.DashboardState.DeleteKit | src/components/dashboard-content.tsx:515-516 | every kit with that id leaves the loaded list and the list is recomputed |
| Dashboard.DashboardState.SetSearchQuery | src/components/dashboard-content.tsx:249 | a new query recomputes the list and returns to page 1; the same query changes nothing |
| Dashboard.DashboardState.SetBrandFilter | src/components/dashboard-content.tsx:273-285 | a new brand choice recomputes the list and returns to page 1 |
| Dashboard.DashboardState.SetGradeFilter | src/components/dashboard-content.tsx:74-78 | a new grade choice recomputes the list, and a grade other than HG also clears the subline |
| Dashboard.DashboardState.SetSublineFilter | src/components/dashboard-content.tsx:327-342 | offered only under grade HG; a new subline recomputes the list |
| Dashboard.DashboardState.SetExclusiveFilter | src/components/dashboard-content.tsx:358-378 | a new edition choice recomputes the list and returns to page 1 |
| Dashboard.DashboardState.SetSortBy | src/components/dashboard-content.tsx:394-404 | a new sort key (or none) re-sorts the list and returns to page 1 |
| Dashboard.DashboardState.SetSortOrder | src/components/dashboard-content.tsx:412-425 | offered only while a key is chosen; a new order re-sorts the list |
| Dashboard.DashboardState.ToggleShowAll | src/components/dashboard-content.tsx:541-543 | switches between all rows and pages; leaving "Show All" returns to page 1 |
| Dashboard.DashboardState.PreviousPage | src/components/dashboard-content.tsx:558-560 | one page back, never before page 1 |
| Dashboard.DashboardState.NextPage | src/components/dashboard-content.tsx:595-597 | one page on, never past the last page |
| Dashboard.DashboardState.GoToPage | src/components/dashboard-content.tsx:580 | a page button goes to the page it names, which exists |
| Dashboard.DashboardState.ShownRows | src/components/dashboard-content.tsx:157-159 | the table shows the whole list under "Show All"; otherwise, for a non-empty list, it shows positions (page-1)*20 up to page*20 or the end, which is 1 to 20 kits |
| GunplaUtils.FormatGunplaDisplayStartsWithGrade | src/lib/gunpla-utils.ts:10-13 | the display's first word is the kit's grade, which can be read back from it, followed by the model number and name |
| GunplaUtils.GetSeriesAbbreviation | src/lib/gunpla-utils.ts:20-39 | a short form is returned only for a listed series, and it is that series' short form |
| GunplaUtils.SeriesAbbreviationSpec | src/lib/gunpla-utils.ts:20-39 | exactly the listed series have a short form, and it is never empty |
| GunplaUtils.SeriesAbbreviationExamples | src/lib/gunpla-utils.ts:24-35 | the documented examples: IBO, UC, BFT; nothing for an unlisted, empty or missing series |
| GunplaUtils.AbbreviationsAreDistinct | src/lib/gunpla-utils.ts:23-36 | different listed series have different short forms |
| GunplaUtils.FormatCurrencyDashIff | src/lib/gunpla-utils.ts:44-48 | "-" shows exactly for a missing value, null, 0 or "", and any other amount is passed on to be formatted |
| ImageOptimization.PresetsGrow | src/lib/image-optimization.ts:7-11 | each preset is wider and of higher quality than the one before, and every quality is below 1 |
| ImageOptimization.TargetHeightIsRounded | src/lib/image-optimization.ts:32-33 | the canvas height is within one half of the exact height that keeps the aspect ratio |
| ImageOptimization.TargetHeightExact | src/lib/image-optimization.ts:32-33 | a whole-number exact height is used as is |
| ImageOptimization.MediumCanvasExample | src/lib/image-optimization.ts:32-36 | a 4000 x 6000 photo becomes a 400 x 600 medium canvas |
| ImageOptimization.GenerateImageSizesSpec | src/lib/image-optimization.ts:74-112 | the three compressions use the presets' widths and qualities; the result reports them, their total and the original size, and fails exactly when one compression fails, with that error |
| ImageOptimization.FirstNonEmptySpec | src/lib/image-optimization.ts:183-189 | a `\|\|` chain gives the first present non-empty URL, and "" exactly when there is none |
| ImageOptimization.GetOptimizedImageUrlFallsBack | src/lib/image-optimization.ts:171-191 | each context consults the URLs in its own fallback order, and a missing context means medium |
| ImageOptimization.GetOptimizedImageUrlEmptyIff | src/lib/image-optimization.ts:171-191 | the result is "" exactly when every consulted URL is missing or empty, and is otherwise one of the stored URLs |
| ImageOptimization.SavedBytes | src/lib/image-optimization.ts:205 | the saving is negative exactly when the compressed file is larger, and 0 exactly when the sizes are equal |
| ImageOptimization.MonthlySavedBytes | src/lib/image-optimization.ts:208-210 | the monthly saving has the sign of the per-view saving |
| ImageStats.HasImageIff | src/lib/image-stats.ts:26 | a kit counts as having an image iff its URL is present and not blank |
| ImageStats.KitsWithImages | src/lib/image-stats.ts:26 | the number of kits with an image is at most the number of kits |
| ImageStats.RoundDivIsNearest | src/lib/image-stats.ts:51-53 | the rounded figure is within one half of the exact quotient |
| ImageStats.ImageStatsSpec | src/lib/image-stats.ts:25-56 | the total is 330 KiB per kit with an image; the average is that, or 0 without images; moderate and heavy egress are 5 and 10 times the conservative egress, which is 100 views of the total |
| ImageStats.OneImageEgressExample | src/lib/image-stats.ts:41-51 | one kit with an image shows 0.03 GiB of conservative monthly egress |
| ImageStats.ImagelessKitsDoNotCount | src/lib/image-stats.ts:26 | adding a kit without an image changes only the kit count |
| ImageStats.SavingsSpec | src/lib/image-stats.ts:61-85 | 2230 KiB are saved per kit, an 87% reduction; saved plus stored bytes are what the uncompressed images would take; the monthly figure is 500 views |
| ImageUpload.CheckSpec | src/components/image-upload-field.tsx:19-33 | a file is accepted iff its type is one of the four image types and it has at most 10 MiB; the type is checked first |
| ImageUpload.SizeLimitExamples | src/components/image-upload-field.tsx:19-30 | exactly 10 MiB passes and one byte more is too large; a wrong type is reported before the size |
| ImageUpload.UploadField.constructor | src/components/image-upload-field.tsx:17 | the field starts with no error and the form's image URL |
| ImageUpload.UploadField.ValidateFile | src/components/image-upload-field.tsx:22-33 | returns true iff the file passes the checks; sets the matching error or clears it; touches nothing else |
| ImageUpload.UploadField.HandleFileSelect | src/components/image-upload-field.tsx:35-44 | a refused file shows its error and leaves the image; an accepted one clears the error and becomes the image once read |
| ImageUpload.UploadField.HandleRemove | src/components/image-upload-field.tsx:77-82 | the image and the file input are cleared; the error stays |
| KitCard.BadgeIsPrefix | src/components/kit-card.tsx:25-26 | the badge always shows the prefix |
| KitCard.PrefixHasNoEdgeSpace | src/components/kit-card.tsx:25-26 | the prefix is non-empty and has no white space at either end |
| KitCard.DisplayTitleStartsWithPrefix | src/components/kit-card.tsx:27 | the title starts with the prefix and a space, and is exactly prefix, number and name joined by spaces when the name does not end in white space |
| KitCard.ImageAltExtendsTitle | src/components/kit-card.tsx:28 | the image text starts with the title and is longer exactly when the series is present and non-empty |
| KitCard.HasImageAgreesWithStats | src/components/kit-card.tsx:23-24 | the card shows an image exactly when the statistics count the kit as having one, from the trimmed URL |
| KitCard.PrefixAgainstGradeCell | src/components/kit-card.tsx:25-26 | for Bandai kits the card's prefix equals the table's grade cell iff the kit has no subline or is an HG |
| KitCard.SublineOutsideHGExample | src/components/kit-card.tsx:25-26 | a Bandai MG recorded with subline HGUC shows "HGUC" on its card but "MG" in the table |
| Schemas.FieldsDeclared | src/lib/schemas.ts:28-41 | the twelve fields listed are all the fields of the schema |
| Schemas.EnumsMatchDatabase | src/lib/schemas.ts:3-26 | the grade and subline enumerations of the schema accept exactly the database's names |
| Schemas.FailingFields | src/lib/schemas.ts:28-41 | the reported fields are exactly those whose values fail their parsers |
| Schemas.FieldParsesIff | src/lib/schemas.ts:28-41 | each field's parser accepts exactly what the schema declares for its key: type, length bounds, optional, nullable |
| Schemas.SuccessMeansEveryFieldParses | src/lib/schemas.ts:28-41 | the parse succeeds iff every field's parser passes |
| Schemas.ParseReportsNonConformingFields | src/lib/schemas.ts:28-41 | the parse succeeds iff every field conforms, and on failure it reports exactly the non-conforming fields |
| Schemas.ParsedValues | src/lib/schemas.ts:28-41 | a successful parse keeps the given grade, number, name, series, year, date, price and flags, filling in '' for a missing series, year, date or price and false for a missing exclusive flag; the subline, notes and image URL stay absent, null or the value given |
| Schemas.GradeRequired | src/lib/schemas.ts:29 | an object without a grade is refused, and grade is among the reported fields |
| Schemas.UndeclaredKeysIgnored | src/lib/schemas.ts:28-41 | a key the schema does not declare makes no difference to the parse |
| Schemas.BrandDropped | src/lib/schemas.ts:28-41 | the form's brand, which the schema does not declare, makes no difference to the parse |
| Schemas.FieldParsesReadsOnlyItsKey | src/lib/schemas.ts:28-41 | whether a field parses depends only on the value under its own key |
| GunplaForm.NewKitDefaults | src/components/gunpla-form.tsx:59-72 | a new kit's form starts at Bandai, HG, no subline, not owned, not exclusive, every text empty |
| GunplaForm.TrimmedOrNullSpec | src/components/gunpla-form.tsx:101 | `trim() \|\| null` is null iff the text is blank; otherwise it is text without white space at either end, and text already trimmed is kept |
| GunplaForm.RawEntries | src/components/gunpla-form.tsx:144-341 | the object validated holds, under each field's key, the value of the registered input, and nothing under the notes and price keys |
| GunplaForm.FieldParsesOnForm | src/components/gunpla-form.tsx:51-58 | a field of the form passes the schema iff its input is not refused: "No subline", a model number outside 1 to 50 characters, a model name outside 1 to 255, a series over 100 |
| GunplaForm.ValidateIff | src/components/gunpla-form.tsx:51-58 | the form passes validation iff "No subline" is not chosen and the model number, model name and series are within their lengths; a refused form reports exactly the refused inputs |
| GunplaForm.NoSublineRefused | src/components/gunpla-form.tsx:196 | choosing "No subline" makes the schema refuse the form and report the subline |
| GunplaForm.BrandIgnored | src/components/gunpla-form.tsx:144-145 | the brand chosen makes no difference to what is validated and sent |
| GunplaForm.ValidatedValues | src/components/gunpla-form.tsx:51-58 | the parsed values of an accepted form are its inputs' values, with an unset subline or removed image as null, no notes and an empty price |
| GunplaForm.AcceptedFormRecord | src/components/gunpla-form.tsx:95-110 | the record built from an accepted form's parsed values is its inputs' values, normalised |
| GunplaForm.SubmitRecordNormalises | src/components/gunpla-form.tsx:95-110 | for an accepted form the record keeps the grade, number, name and flags as entered, has a subline iff one is chosen, a trimmed non-blank series and image URL or null, and a null year or date iff it was left empty |
| GunplaForm.ResubmitDefaultsRoundTrip | src/components/gunpla-form.tsx:59-110 | an existing kit's untouched form is accepted iff the kit's number, name and series are within the schema's lengths, and then sends back its grade, subline, number, name, year and flags, and its date, series and image URL when they carry no surrounding white space |
| GunplaForm.YearRoundTrip | src/components/gunpla-form.tsx:66 | a stored release year shows as decimal text that `parseInt` reads back to the same year |
| GunplaForm.ChooseAction | src/components/gunpla-form.tsx:112-116 | the submission updates iff the edited kit has an id, and then updates that id; otherwise it creates |
| GunplaForm.SublineSelectNeedsGradeSelect | src/components/gunpla-form.tsx:157-184 | the subline selector shows exactly when the grade selector shows and HG is chosen |
| GunplaForm.ImagePreview | src/components/gunpla-form.tsx:82-88 | a preview shows the image URL as typed |
| GunplaForm.PreviewIffSubmittedImage | src/components/gunpla-form.tsx:82-109 | for an accepted form, a preview shows exactly when the submitted record will carry an image URL |
| GunplaForm.FormSubmission.constructor | src/components/gunpla-form.tsx:48-49 | no error, not submitting, no refused inputs |
| GunplaForm.FormSubmission.Submit | src/components/gunpla-form.tsx:51-124 | values the schema refuses send nothing and mark exactly the refused inputs; accepted values send the parsed values, whose record `Request.Record()` builds, through the chosen action; on success it stays submitting and returns to the dashboard, and on failure it shows the thrown message or "An error occurred" and can be submitted again |
| Text.TrimIdempotent | src/components/gunpla-form.tsx:101 | trimming twice is trimming once |
| Text.ParseIntOfIntToString | src/components/gunpla-form.tsx:102 | `parseInt` reads back the decimal text of any integer |

## Left out

- Network and server I/O are parameters.
  - The Supabase queries are not modelled; `FetchKits` takes the user's rows in the
    server's order (newest first).
  - The create and update calls are stood for by the submit action and record.
  - The failure of a call is an input to `LoadFailed` and `Submit`.
  - `uploadImageSizes` (storage uploads and their URLs) is not modelled.
- Browser APIs are left out: the canvas, `FileReader`, image decoding and WebP encoding.
  - A compression is a function parameter returning a size or an error.
  - Reading a chosen file is the data URL passed to `HandleFileSelect`.
  - Drag-and-drop highlighting and `isDragging` are left out.
- React scheduling is left out. The effects that recompute the list, reset the page,
  clear the subline and start a load run inside the method that triggers them, as if
  applied at once.
- DashboardSort.NameCompare approximates `localeCompare`. It compares case-insensitively
  by character code, then puts lower case first. With numeric collation it compares runs
  of digits by value. The real ICU collation, with accents and locale rules, is not
  modelled.
- Text.ToLower folds only ASCII letters. `toLowerCase` also folds other alphabets.
- Strings are sequences of characters. Zod's length bounds count UTF-16 code units, and
  the model counts characters. The two differ only outside the Basic Multilingual Plane.
- Floating point is left out.
  - Prices are whole cents: no `parseFloat` of a price string, and no fractions of a cent.
  - Ratios shown with `toFixed` are integers rounded half up, in hundredths of a GiB or in
    whole KiB or percent.
  - The reduction percentage of `estimateEgressSavings` and its GiB strings are left
    out. Only the saved bytes and the monthly bytes are modelled.
- ImageStats.CalculateImageStats keeps the three egress figures in bytes rather than as
  GiB strings. `GiBHundredths` gives the displayed number.
- ImageOptimization.TargetHeight requires a positive natural width. A zero-width image
  makes the source divide by zero, which the model does not represent.
- GunplaUtils.FormatCurrency stops at the choice between "-" and a formatted amount. The
  dollar formatting by `toLocaleString` is not modelled.
- GunplaUtils.GetSeriesAbbreviation reads a plain map of the twelve listed series. A
  look-up of an inherited object property name (such as "constructor") is not modelled.
- The form's purchase price is not modelled. The stored price is whole cents, and the
  form parses it with `parseFloat`. Its input is left out of the validated object
  (`GunplaForm.Raw`); the schema accepts any text or none there, so this does not change
  whether a form is accepted.
- GunplaForm.YearOf models `parseInt` on decimal text: optional white space, a sign and
  digits. The `0x` hexadecimal prefix and numeric separators are not handled.
- The form's brand list: the form imports `kitBrandEnum`
  (src/components/gunpla-form.tsx:7), but src/lib/schemas.ts as written does not define
  it. The brand list is taken from the database's `kit_brand` enumeration instead. The
  record sent has no brand either way, because the schema has no `brand` key and drops it
  (`Schemas.BrandDropped`, `GunplaForm.BrandIgnored`).
- Schemas.Parse reports refused fields as a list of `Field` values in schema order, not
  as zod issue objects with messages and paths. The messages shown under refused inputs
  are not modelled; `GunplaForm.FormSubmission` records which inputs are refused.
- Display-only details are left out: empty-state texts, loading spinners, modal image
  viewers, CSS classes, service-worker registration and the other context pages.
- The card's prefix and the table's grade cell disagree for a Bandai kit that has a
  subline but is not an HG. This is stated as a property
  (`KitCard.PrefixAgainstGradeCell`) and is not corrected, since either reading could be
  the one intended.
