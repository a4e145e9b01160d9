# pass-js in Dafny

A model of the part of pass-js that builds Apple Wallet `.pkpass` bundles, with
proofs of what each part promises. The model covers:

- **the pass style** (`PassStructure`): at most one of the five styles, the
  transit type of a boarding pass, the NFC object of a store card, and the five
  lazily created field lists;
- **the field lists** (`FieldsMap`): an insertion-ordered map with `add`,
  `setValue`, `setDateTime` and `toJSON`;
- **the top-level attributes** (`PassBase`): the setters, each of the form
  "a falsy value deletes, anything else is checked and then stored", the
  constructor's replay of its argument through the setters, `addLocation`, and
  the pass.json object `toJSON` returns, style object and NFC object included;
- **the image catalogue** (`PassImages`): the file name an image is stored
  under, the regular expression that reads one back, the size checks and the
  required-image check;
- **the W3C date codec**: the grammar check, the encoder and the decoder;
- **locale normalisation**;
- **the pass itself** (`Pass`): `validate`, and the member list `asBuffer`
  hands to the zip writer, with the manifest of hashes and the signature;
- **the constants** these all use.

JavaScript values are modelled by `JsValues.Value`. A thrown exception becomes
an `Err`/`Fail` result that carries the exception's constructor
(`TypeError`, `ReferenceError`, `SyntaxError`, plain `Error`). The source's
classes become Dafny classes whose fields the methods update.
`PassBase extends PassStructure` becomes a `PassBase` that holds its
`PassStructure`. The two share `this.fields` in the source, but under disjoint
keys, so the model keeps the top-level attributes in `PassBase.fields` and the
style keys and `nfc` in the structure; `toJSON` joins the two.

Everything the code cannot compute by itself is a parameter:
- `new Date(v)` for a value that is not a Date, and the host's local-time
  getters (`W3CDate.Host`);
- `new PassColor(v)`, URL parsing, `getGeoPoint`, and the JSON form of an
  NFC object (`BasePass.Env`);
- the PNG header sniffed by `imagesize`;
- `JSON.stringify`, UTF-8 encoding, `getBufferHash` and `signManifest`
  (`Bundle.Crypto`).

Modules, one per source file:

| module | file |
|---|---|
| `JsValues`, `OrderedMaps` | JavaScript values, exceptions, and the ordered `Map` the classes extend |
| `Constants` | `dist/constants.js` |
| `Locales` | `dist/lib/normalize-locale.js` |
| `W3CDate` | `dist/lib/w3cdate.js` |
| `FieldsMaps` | `dist/lib/fieldsMap.js` |
| `Structure` | `dist/lib/pass-structure.js` |
| `Images` | `dist/lib/images.js` |
| `BasePass` | `dist/lib/base-pass.js` |
| `Bundle` | `dist/pass.js` |

## Model

| member | source | states |
|---|---|---|
| Constants.StyleOf | dist/constants.js:81-87 | a value names a style exactly when it is the string of one of the five PASS_STYLES |
| Constants.PassStylesComplete | dist/constants.js:81-87 | PASS_STYLES lists each of the five styles exactly once |
| Constants.TransitOf | dist/constants.js:10-16 | a value is a transit type exactly when it is one of the five TRANSIT strings |
| Constants.BarcodesFormatIsBarcodeFormat | dist/constants.js:196-201 | BARCODES_FORMAT is exactly the set of the four `barcodeFormat` values |
| Constants.ImageTypeOf | dist/constants.js:51-78 | a name is an image type exactly when it is one of the six IMAGES keys |
| Constants.RequiredImages | dist/constants.js:51-78 | IMAGES has six types and only icon and logo are required |
| Constants.DensityOf | dist/constants.js:79 | a name is a density exactly when it is 1x, 2x or 3x |
| Bundle.RequiredAreTopLevelRequired | dist/constants.js:91-118 | the TOP_LEVEL_FIELDS entries flagged required are exactly the five names `validate` checks |
| Structure.StructureFieldsComplete | dist/constants.js:189-195 | STRUCTURE_FIELDS lists each of the five structure arrays |
| Locales.NormalizeLocale | dist/lib/normalize-locale.js:9-11 | a TypeError exactly when the regular expression does not match |
| Locales.ParseSound | dist/lib/normalize-locale.js:9 | whatever the pattern accepts is a well-formed language, variant and country spelled with `-` or `_` separators |
| Locales.ParseComplete | dist/lib/normalize-locale.js:9 | every well-formed locale, with either separator, is accepted and normalises to the same string as the locale itself |
| Locales.NormalizeSpelled | dist/lib/normalize-locale.js:12-19 | the result is the language lower-cased, the variant title-cased and the country upper-cased, joined with `-` |
| Locales.NormalizeIdempotent | dist/lib/normalize-locale.js:7-20 | normalising a normalised locale returns it unchanged |
| Locales.CanonicalFixpoint | dist/lib/normalize-locale.js:7-20 | a locale in normalised spelling is its own normalisation |
| Locales.NormalizedHasNoUnderscore | dist/lib/normalize-locale.js:14-18 | a normalised locale never contains `_` |
| Locales.TitleKeepsClasses | dist/lib/normalize-locale.js:13-16 | title-casing keeps letters letters and digits unchanged, and is idempotent |
| Locales.CaseMapsKeepClasses | dist/lib/normalize-locale.js:12-18 | lower- and upper-casing keep letters letters, leave digits alone, and are idempotent |
| W3CDate.GetW3CDateString | dist/lib/w3cdate.js:24-28 | a TypeError exactly when the value is neither a string nor a Date; a valid W3C string is returned unchanged |
| W3CDate.EncodesLocal | dist/lib/w3cdate.js:29-52 | a Date is written, as the source writes it, as `YYYY-MM-DDTHH:MM` from the host's local components followed by the zone designator `Math.floor` gives |
| W3CDate.EncodeLocalValid | dist/lib/w3cdate.js:10-15 | with the zone designator corrected, what the encoder writes for years 2000-2099 and whole- or half-hour offsets passes isValidW3CDateString |
| W3CDate.DecodeEncodeAsWritten | dist/lib/w3cdate.js:44-67 | for years 2000-2099 and any offset under 20 hours, the decoder accepts what the encoder as written produces exactly when the offset is a whole or half hour, east of UTC or whole hours west, and then returns the instant of the local components |
| W3CDate.ZoneAsWrittenOffGrid | dist/lib/w3cdate.js:45-51 | an offset that is not a whole or half hour is written with minutes outside `00`/`30` (`+05:45`), or negative ones west of UTC |
| W3CDate.OffGridRejected | dist/lib/w3cdate.js:10-57 | the decoder rejects what the encoder writes for an offset that is not a whole or half hour |
| W3CDate.QuarterHourZoneBug | dist/lib/w3cdate.js:44-57 | UTC+05:45 is written `+05:45`, which the decoder rejects |
| W3CDate.EncoderIdempotent | dist/lib/w3cdate.js:27-28 | for years 2000-2099 and whole- or half-hour offsets under 20 hours, east of UTC or whole hours west, encoding the encoder's own output returns it unchanged |
| W3CDate.GetDateFromW3CString | dist/lib/w3cdate.js:55-60 | a TypeError unless the value passes the grammar and has a numeric offset |
| W3CDate.DecoderAcceptsExactlyNumericOffsets | dist/lib/w3cdate.js:56-60 | among valid W3C strings the decoder rejects exactly those ending in `Z` or with seconds |
| W3CDate.DecodedInstant | dist/lib/w3cdate.js:62-67 | the decoded instant is UTC of the fields minus the signed offset in minutes |
| W3CDate.DecodeEncodeLocal | dist/lib/w3cdate.js:44-67 | with the zone designator corrected, the decoder accepts what the encoder writes for every whole- or half-hour offset and returns the instant of the local components |
| W3CDate.RoundTrip | dist/lib/w3cdate.js:24-67 | for years 2000-2099 and whole- or half-hour offsets under 20 hours, east of UTC or whole hours west, decoding the encoding of a Date gives its instant truncated to the minute |
| W3CDate.ZoneAsWrittenAgrees | dist/lib/w3cdate.js:44-51 | the zone designator as written is right for offsets east of UTC and for whole hours |
| W3CDate.NegativeHalfHourOffsetBug | dist/lib/w3cdate.js:45-51 | an offset of -3:30 is written as `-04:-30`, which the decoder rejects |
| W3CDate.LongZoneRejected | dist/lib/w3cdate.js:58-60 | a string with a zone designator longer than `±hh:mm` is rejected |
| OrderedMaps.SetKeepsOrder | dist/lib/fieldsMap.js:5 | `Map.set` keeps the existing keys in place and appends a new key at the end |
| OrderedMaps.SetAllLastWins | dist/lib/fieldsMap.js:5 | after a run of `set` calls, a key holds the value of its last occurrence |
| OrderedMaps.SetAllUntouched | dist/lib/fieldsMap.js:5 | a key the run of `set` calls never mentions keeps its value |
| FieldsMaps.AddEntry | dist/lib/fieldsMap.js:26-39 | add succeeds exactly for a string key with a `value`, and a valid Date when `dateStyle` is given; it stores the other properties as given, and under `dateStyle` the value as a Date |
| FieldsMaps.AddEntryRecord | dist/lib/fieldsMap.js:32-38 | the stored record is the field without its key, with the value replaced by the Date it converts to when `dateStyle` is given |
| FieldsMaps.FieldsMap.Add | dist/lib/fieldsMap.js:26-41 | a rejected field is a TypeError and changes nothing; an accepted one is set under its key |
| FieldsMaps.AddAllAccepts | dist/lib/fieldsMap.js:26-41 | adding a list of fields succeeds exactly when each field is accepted |
| FieldsMaps.AddAllIsSetAll | dist/lib/fieldsMap.js:26-41 | adding a list of fields sets their entries in order |
| FieldsMaps.AddAllStops | dist/lib/fieldsMap.js:28-31 | the first rejected field stops the adding |
| FieldsMaps.WithValue | dist/lib/fieldsMap.js:54-56 | setValue replaces only `value` of an existing record, and creates `{value}` otherwise |
| FieldsMaps.FieldsMap.SetValue | dist/lib/fieldsMap.js:49-58 | a TypeError for a key or value that is not a string; otherwise the new record is stored under the key |
| FieldsMaps.DateTimeRecord | dist/lib/fieldsMap.js:70-89 | a TypeError for a non-string key or label or a non-Date; a ReferenceError when only one of dateStyle and timeStyle is set; otherwise exactly label, value, changeMessage, dateStyle, ignoresTimeZone, isRelative and timeStyle, as given |
| FieldsMaps.FieldsMap.SetDateTime | dist/lib/fieldsMap.js:70-91 | a rejected call changes nothing; an accepted one stores the record under the key |
| FieldsMaps.FieldsMap.ToJSON | dist/lib/fieldsMap.js:9-18 | undefined when empty; otherwise one entry per key in insertion order, the key put back, Dates rewritten to W3C strings in place (the map becomes `Serialized` of the old one) |
| FieldsMaps.Serialized | dist/lib/fieldsMap.js:12-15 | what toJSON leaves in the map: same keys in the same order, no Date value left |
| FieldsMaps.SerializedJsonStable | dist/lib/fieldsMap.js:9-18 | the map toJSON leaves gives the same JSON again, and a second toJSON changes nothing more |
| FieldsMaps.RewriteEntries | dist/lib/fieldsMap.js:12-17 | the loop rewrites each record and emits the entries in key order |
| FieldsMaps.RewriteIdempotent | dist/lib/fieldsMap.js:14-15 | rewriting a record twice is rewriting it once |
| FieldsMaps.ToJsonStable | dist/lib/fieldsMap.js:9-18 | a second toJSON leaves the stored records as the first left them |
| FieldsMaps.AddThenJson | dist/lib/fieldsMap.js:9-39 | a field without `dateStyle` that add stores comes back out of toJSON as the field it was given |
| Structure.StyleIn | dist/lib/pass-structure.js:47-53 | the style is absent exactly when no style is held, and is one the structure holds |
| Structure.FirstIn | dist/lib/pass-structure.js:48-52 | the first style in PASS_STYLES order that is present, or none when none is |
| Structure.OnlyStyle | dist/lib/pass-structure.js:47-53 | with one style held, `style` names exactly it |
| Structure.PassStructure.GetStyle | dist/lib/pass-structure.js:47-53 | returns the held style, the only one |
| Structure.PassStructure.SetStyle | dist/lib/pass-structure.js:54-69 | every other style is deleted first; a falsy value then stops, an unknown one throws a TypeError; a known style keeps its data, and storeCard gets a fresh empty NFC object |
| Structure.PassStructure.DropOtherStyles | dist/lib/pass-structure.js:56-58 | exactly the style equal to the value survives, with its data |
| Structure.PassStructure.AddStyle | dist/lib/pass-structure.js:63-67 | the style is added unless present; storeCard resets the NFC object |
| Structure.PassStructure.GetTransitType | dist/lib/pass-structure.js:75-81 | a ReferenceError unless the style is boardingPass; otherwise its transit type |
| Structure.PassStructure.SetTransitType | dist/lib/pass-structure.js:82-107 | a falsy value on an unstyled pass does nothing; a truthy one makes it a boarding pass first; another style is a ReferenceError |
| Structure.PassStructure.SetBoardingTransit | dist/lib/pass-structure.js:91-106 | a falsy value deletes only the transit type; a TRANSIT value is stored; anything else is a TypeError |
| Structure.PassStructure.GetNfc | dist/lib/pass-structure.js:117-121 | a ReferenceError unless the pass is a store card |
| Structure.PassStructure.GetList | dist/lib/pass-structure.js:122-161 | a ReferenceError without a style; otherwise the list, created empty on first access and the same one afterwards |
| Structure.PassStructure.AddToList | dist/lib/pass-structure.js:122-161 | `pass.headerFields.add(field)` and its siblings add to the list the getter returns |
| Structure.StructureMembers | dist/lib/pass-structure.js:29-38 | reading a property of a primitive structure is a TypeError; an array property gives its elements |
| Structure.LastStyleIn | dist/lib/pass-structure.js:18-20 | the constructor ends with the last style its argument names |
| Structure.LastStyleStep | dist/lib/pass-structure.js:18-20 | one more style of PASS_STYLES replaces the last one named |
| Structure.ListsFor | dist/lib/pass-structure.js:29-40 | the lists built are well formed, and a failure is a TypeError |
| Structure.ListsForMeaning | dist/lib/pass-structure.js:29-40 | each structure array gives a list holding its fields added in order |
| Structure.ListsForStops | dist/lib/pass-structure.js:29-40 | a failing field stops the loop over STRUCTURE_FIELDS |
| Structure.BuildLists | dist/lib/pass-structure.js:29-40 | the loop over STRUCTURE_FIELDS builds exactly ListsFor |
| Structure.AddFields | dist/lib/pass-structure.js:32-34 | the loop adding an array's fields gives the fold of `add` |
| Structure.PassStructure.LoadLists | dist/lib/pass-structure.js:28-40 | the lists held are those ListsFor builds, or its error with the lists unchanged |
| Structure.PassStructure.StartStyle | dist/lib/pass-structure.js:20-27 | the new state and outcome are StartRound's: the style is set, then the transit type whenever the argument has a truthy boardingPass, else a storeCard's NFC data |
| Structure.PassStructure.LoadStyle | dist/lib/pass-structure.js:19-40 | one round of the constructor's loop leaves the style, transit type and lists for the style; state and outcome are LoadRound's |
| Structure.PassStructure.LoadStep | dist/lib/pass-structure.js:18-42 | a round of the loop over PASS_STYLES takes LoadUpTo(i) to LoadUpTo(i + 1) |
| Structure.PassStructure.Load | dist/lib/pass-structure.js:15-43 | the constructor's state and outcome are LoadResult's, failure included; on success it ends with the last style its argument names, and its lists |
| Structure.LoadUpTo | dist/lib/pass-structure.js:18-42 | the loop over the first n styles: absent styles skipped, the first failing round stops it, and every error is a TypeError or a ReferenceError |
| Structure.LoadResult | dist/lib/pass-structure.js:15-43 | what the constructor leaves, or throws: a TypeError or a ReferenceError |
| Structure.LoadUpToStops | dist/lib/pass-structure.js:18-42 | once a round throws, no later round changes the result |
| Structure.LoadUpToSkips | dist/lib/pass-structure.js:19 | rounds for styles the argument does not name change nothing |
| Structure.BoardingWithLaterStyleFails | dist/lib/pass-structure.js:18-23 | a truthy boardingPass next to any later style always throws; if the boardingPass round succeeded, it is the ReferenceError of `set transitType` |
| Structure.StoreCardNfcKept | dist/lib/pass-structure.js:24-27 | when a storeCard loads, the NFC object made from its `nfc` (or the empty one) survives a later generic style |
| Structure.ListEntry | dist/lib/fieldsMap.js:9-11 | a field list is written only when it is stored and not empty, since an empty FieldsMap serialises to undefined |
| Structure.StyleJson | dist/lib/pass-structure.js:99-103 | the style object holds `transitType` exactly when the boarding pass has one, with its value |
| Structure.StyleJsonList | dist/lib/pass-structure.js:122-161 | the style object holds each field list under its name exactly when it is stored and not empty, as FieldsMap's toJSON writes it |
| Structure.StructureJson | dist/lib/pass-structure.js:63-67 | the style part adds to pass.json the style object under the name of the style held, `nfc` while there is an NFC object, and nothing else |
| Structure.StructureJsonStyle | dist/lib/pass-structure.js:54-64 | the only style name among those entries is the name of the style held |
| Images.ParseFilename | dist/lib/images.js:107-117 | a captured density is 2x or 3x; a locale that does not normalise is a TypeError |
| Images.GetImageFilename | dist/lib/images.js:186-188 | a TypeError exactly when a non-empty locale does not normalise |
| Images.GetImageFilenameShape | dist/lib/images.js:186-188 | the name is the normalised locale's `.lproj/` directory if any, the type, `@2x` or `@3x` for those densities, and `.png` |
| Images.ParseFilenameRoundTrip | dist/lib/images.js:107-117 | parsing a generated file name gives back the type, the 2x/3x density and the normalised locale |
| Images.MatchTypeOfWritten | dist/lib/images.js:15 | the imageType group reads back each of the six type names with its suffix, `thumbnail+` included |
| Images.TryLangNeedsSlash | dist/lib/images.js:15 | without a `/` no locale directory is captured |
| Images.DensityMultiplier | dist/lib/images.js:120 | the leading digit of the density, 1 without one |
| Images.CheckImage | dist/lib/images.js:119-127 | a TypeError naming the format, then the width, then the height, in that order |
| Images.CheckImageAccepts | dist/lib/images.js:119-185 | an image passes exactly when it is a PNG of positive integer size that fits its type's bounds scaled by the density |
| Images.CheckImageScales | dist/lib/images.js:131-184 | an image that passes at 1x passes at any density when scaled |
| Images.BaselinesAgainstCheck | dist/lib/images.js:131-184 | the IMAGES baseline sizes, scaled by the density, pass checkImage for every type but footer |
| Images.AddCheck | dist/lib/images.js:80-105 | a TypeError for an unknown type, then a density not in DENSITIES, then data that is no PNG; a failing checkImage is its error; on success checkImage passed and the name is the generated one |
| Images.PassImages.Add | dist/lib/images.js:80-106 | on success exactly the generated name is set to the source; on failure nothing changes |
| Images.PassImages.Validate | dist/lib/images.js:31-37 | a SyntaxError naming the first of icon.png and logo.png no key ends in |
| Images.ValidateMonotone | dist/lib/images.js:31-37 | adding names never makes validate fail where it passed |
| Images.PassImages.constructor | dist/lib/images.js:17-19 | a copy of another PassImages, or empty |
| BasePass.AttrOf | dist/lib/base-pass.js:18 | a key names a setter exactly when it is that setter's name |
| BasePass.AttrNameInjective | dist/lib/base-pass.js:35-463 | no two setters share a name |
| BasePass.Assign | dist/lib/base-pass.js:38-427 | a setter changes no other attribute |
| BasePass.PlainSetter | dist/lib/base-pass.js:38-242 | the string setters delete on a falsy value and store any other value as given |
| BasePass.FlagSetter | dist/lib/base-pass.js:70-230 | the flags store `true` for a truthy value and delete otherwise |
| BasePass.DateSetter | dist/lib/base-pass.js:99-151 | a valid Date or W3C string is stored as is, another string as the Date it parses to; an invalid Date is a TypeError; any other truthy value keeps what was stored |
| BasePass.DateReadBack | dist/lib/base-pass.js:94-125 | a date set from a string reads back as the Date that string denotes |
| BasePass.PlainReadBack | dist/lib/base-pass.js:35-242 | a plain attribute or a flag reads back as set |
| BasePass.StoreIdentifiersSetter | dist/lib/base-pass.js:162-172 | the integers of the array are stored in order, none deletes, a non-array is a TypeError |
| BasePass.IntegersMembers | dist/lib/base-pass.js:167 | the integer filter keeps exactly the integers |
| BasePass.IntegersAppend | dist/lib/base-pass.js:167 | the filter keeps the order of the array |
| BasePass.IntegersIdempotent | dist/lib/base-pass.js:167 | filtering twice is filtering once |
| BasePass.StoreIdentifiersReassign | dist/lib/base-pass.js:159-172 | assigning back what the getter returns leaves the attributes unchanged |
| BasePass.TokenSetter | dist/lib/base-pass.js:275-285 | a non-string or a string shorter than 16 is a TypeError |
| BasePass.UrlSetter | dist/lib/base-pass.js:254-267 | a URL that does not parse, or is not https without allowHttp, is a TypeError |
| BasePass.MaxDistanceSetter | dist/lib/base-pass.js:373-381 | a non-integer is a TypeError |
| BasePass.BarcodesSetter | dist/lib/base-pass.js:408-427 | an array, empty or not, is stored exactly when every barcode is valid; one bad barcode is a TypeError for the whole array |
| BasePass.BeaconsSetter | dist/lib/base-pass.js:388-399 | a beacon without a proximityUUID rejects the array; a non-array deletes |
| BasePass.SetterIdempotent | dist/lib/base-pass.js:38-427 | setting the same value twice is setting it once |
| BasePass.StoredIgnoresCurrent | dist/lib/base-pass.js:38-427 | only the date setters look at what was stored before |
| BasePass.LocationRecord | dist/lib/base-pass.js:436-444 | a location holds the point's longitude and latitude, its altitude when truthy, and relevantText when a string |
| BasePass.WithLocation | dist/lib/base-pass.js:445-448 | addLocation pushes onto the stored array, or starts one |
| BasePass.PassBase.AddLocation | dist/lib/base-pass.js:435-450 | a failing point changes nothing; otherwise the location is appended |
| BasePass.FoldDone | dist/lib/base-pass.js:461-462 | the locations loop completes exactly when every element resolves |
| BasePass.FoldAppends | dist/lib/base-pass.js:461-462 | when it completes, the loop appends one location per element, in order |
| BasePass.LocationsSetter | dist/lib/base-pass.js:454-463 | a falsy value deletes; another non-array is a TypeError; an empty array leaves none; an array gives exactly one location per element, in order, when every element resolves |
| BasePass.PassBase.SetLocations | dist/lib/base-pass.js:454-463 | the record and outcome are those AssignLocations gives |
| BasePass.PassBase.Set | dist/lib/base-pass.js:38-427 | a rejected value changes nothing; an accepted one is the record Assign gives |
| BasePass.PassBase.SetEntries | dist/lib/base-pass.js:388-427 | the entries are checked before anything is stored |
| BasePass.CheckEach | dist/lib/base-pass.js:392-423 | the loop passes exactly when every entry is valid, and fails with a TypeError otherwise |
| BasePass.PassJsonStructure | dist/lib/pass-structure.js:63-67 | the style object sits in pass.json under the name of the style, and the NFC object under `nfc` |
| BasePass.PassJsonKeys | dist/lib/base-pass.js:28-34 | pass.json holds formatVersion, the name of each stored attribute, the name of the style held and `nfc` while there is an NFC object, and nothing else |
| BasePass.PassJsonValues | dist/lib/base-pass.js:29-32 | formatVersion is 1, and each attribute appears under its own name, a Date as its W3C string |
| BasePass.PassJsonAdd | dist/lib/base-pass.js:28-34 | storing one more attribute adds its entry and changes no other |
| BasePass.PassJsonEmpty | dist/lib/base-pass.js:29 | with no attribute, no style and no NFC object stored, pass.json is formatVersion alone |
| BasePass.JsonDateRoundTrip | dist/lib/base-pass.js:31 | for years 2000-2099 and whole- or half-hour offsets under 20 hours, east of UTC or whole hours west, a stored Date decodes back from pass.json to its instant truncated to the minute |
| BasePass.PassBase.ToJSON | dist/lib/base-pass.js:28-34 | the object is PassJson of the stored attributes and the state of the style part |
| BasePass.PassBase.Stringify | dist/pass.js:60 | JSON.stringify of the pass: the text is made from PassJson of the state before the call, and the style part's field lists are left serialized in place |
| BasePass.PassBase.ReplayEntry | dist/lib/base-pass.js:17-21 | `style` and `transitType` run the style part's setters, a key naming a setter runs it, any other key changes nothing |
| BasePass.EntryStep | dist/lib/base-pass.js:17-21 | a style key leaves the attributes alone, any other key leaves the style part alone, and a setter key gives that setter's record and outcome |
| BasePass.PassBase.Replay | dist/lib/base-pass.js:17-21 | the attributes, the style part and the outcome are those of running the entries in order, stopping at the first failure |
| BasePass.ReplayKeepsParts | dist/lib/base-pass.js:17-21 | a replay with no `style` or `transitType` key leaves the style part as loaded |
| BasePass.NewPassBase | dist/lib/base-pass.js:13-26 | the structure loads the argument (LoadResult) and ends with its last style, then the setters replay it; the load's error, else the replay's, is the constructor's error |
| BasePass.PassBase.constructor | dist/lib/base-pass.js:13-15 | the new object holds the structure, the images and the options, and no attribute |
| BasePass.EntriesMap | dist/lib/base-pass.js:17 | the argument as an object holds exactly the keys of its entries |
| BasePass.EntriesMapValues | dist/lib/base-pass.js:17 | with distinct keys, each entry's value is the one under its key |
| Bundle.ValidatePassDone | dist/pass.js:21-42 | validate passes exactly when the five required attributes are held, webServiceURL and the token come together, the token is a string of 16 or more, and the images pass |
| Bundle.ValidatePassMissing | dist/pass.js:23-31 | a ReferenceError naming the first missing required attribute, checked before anything else |
| Bundle.ValidatePassToken | dist/pass.js:33-40 | a token that is no string is an Error, a short one a ReferenceError, a token without a URL a TypeError |
| Bundle.FirstMissingMeaning | dist/pass.js:23-31 | the loop finds the first required attribute not held, or none |
| Bundle.RequiredNamed | dist/pass.js:23-29 | the attributes the loop checks are the five named |
| Bundle.Pass.Validate | dist/pass.js:21-42 | the outcome of validate over the stored attributes and image names |
| Bundle.AsBufferOk | dist/pass.js:51-55 | asBuffer succeeds exactly when validate passes and the template has a certificate and a key; it reports them in that order |
| Bundle.BundleOrder | dist/pass.js:57-74 | the members are pass.json, the localization files, the images, manifest.json and the signature, in that order |
| Bundle.ManifestKeys | dist/pass.js:67-70 | the manifest names the path of each member and no other |
| Bundle.ManifestValue | dist/pass.js:67-70 | a path's entry is the hash of the last member with that path |
| Bundle.BuildManifest | dist/pass.js:67-70 | the `reduce` builds exactly the manifest |
| Bundle.BundleManifest | dist/pass.js:67-71 | manifest.json is the JSON of the manifest of exactly the members before it |
| Bundle.BundleSignature | dist/pass.js:73-74 | the signature is made with the template's certificate and key over the manifest JSON string |
| Bundle.Pass.AsBuffer | dist/pass.js:49-76 | the member list, or the error, that asBuffer gives, with pass.json made from the attributes and the style part; on success JSON.stringify has left the field lists serialized in place, on error nothing changes |
| Bundle.Pass.Check | dist/pass.js:51-55 | validate's outcome, then a ReferenceError for a missing certificate, then one for a missing key (BufferCheck, whose meaning AsBufferOk states) |
| Bundle.Pack | dist/pass.js:57-74 | the pushes build exactly the bundle: pass.json, localization, images, the manifest of those, the signature |
| Bundle.AsBufferRepeatable | dist/pass.js:60 | the lists asBuffer leaves serialized give the same members on a later asBuffer |
| Structure.PassStructure.SerializeLists | dist/lib/fieldsMap.js:9-18 | the toJSON of each field list in turn: the lists become SerializedLists of the old ones, style and NFC unchanged |
| Structure.SerializedLists | dist/lib/fieldsMap.js:12-15 | every list keeps its keys and order and stays valid |
| Structure.SerializedStructureJson | dist/lib/fieldsMap.js:9-18 | the serialized lists give the same style object and NFC object in pass.json |
| Bundle.Pass.constructor | dist/pass.js:15-19 | the pass holds its template and its PassBase |
| Bundle.NewPass | dist/pass.js:15-19 | the load's error, else the replay's, is the constructor's error; otherwise the PassBase holds the replayed fields and the template is kept |

## Findings

| source | as written | input that shows it | evidently intended | confidence | as-written member | corrected member |
|---|---|---|---|---|---|---|
| dist/lib/w3cdate.js:45-51 | the offset hours are `Math.abs(Math.floor(offset / 60))` and the minutes are the absolute offset minus sixty times those hours | a zone 3:30 west of UTC (offset -210): written as `-04:-30`, which getDateFromW3CString rejects | the hours and minutes of the absolute offset, `-03:30` | not executed | W3CDate.NegativeHalfHourOffsetBug | W3CDate.DecodeEncodeLocal |

The encoder of the model (`W3CDate.EncodeDate`, used by `GetW3CDateString`,
`FieldsMap.toJSON` and pass.json) writes the zone designator as the source
does; the properties that depend on a well-formed designator
(`RoundTrip`, `EncoderIdempotent`, `JsonDateRoundTrip`) are stated for
years 2000-2099 and whole- or half-hour offsets under 20 hours, east of UTC
or whole hours west (`W3CDate.Encodable` and `W3CDate.ZoneWrittenRight`).

## Left out

- File and stream I/O and the `async` fan-out: `PassImages.load`, `toArray`, the PNG sniffing inside `add`, and `Localizations`. The PNG header is an input (`ImageSize`), and the localization and image members of the bundle are parameters of `AsBuffer`.
- The zip writer, hashing and signing: `getBufferHash`, `signManifest` and `toBuffer` are functions the model takes as parameters. `AsBuffer` returns the member list it would hand to the zip writer.
- JSON text: JSON.stringify and its key order are abstract. pass.json is modelled as the object it is made from, keyed by name.
- Host time: `new Date(string)` and the local-time getters are functions of the host. The round trip assumes the host's local time agrees with the instant.
- Collaborators that are not part of this model: PassColor, getGeoPoint and URL parsing. Each is a parameter: a colour is whatever `new PassColor` gives, a point whatever getGeoPoint gives, a URL only its protocol.
- Colour getters and `PassColor` internals, because pass-color.js is not part of this model.
- Getters that hand out the live FieldsMap, and later changes made through that reference: a list is a value held by the structure, so aliasing is not captured.
- The constructor's replay of keys that name an own property or a method of the class (`fields`, `options`, `toJSON`, ...): only setter keys are replayed.
- NFCField internals, because nfc-fields.js is not part of this model: the NFC object is an empty one or one made from the argument's `nfc` value; its JSON form in pass.json is a parameter (`Env.nfcJson`).
- The `barcode` key that the `barcodes` setter deletes is not a model attribute, so that deletion is a no-op here.
- The token length counts characters, not UTF-16 code units.
- Structure.PassStructure.LoadLists: the lists are built first and then stored, rather than added to the live maps one field at a time; the end state and the error are the same.
- Images.BaselinesAgainstCheck: the footer baseline in IMAGES is 295 wide, while checkImage allows at most 286; the model checks against the coded bounds, as the source does, and the lemma shows the footer baseline failing.
- Images.ParseFilenameRoundTrip: stated for locales written with letters and `-` only. The `lang` group of IMAGE_FILENAME_REGEX takes no digits, so a normalised locale such as `es-419` is not read back.
- RoundTrip: stated for years 2000-2099 and whole- or half-hour offsets under 20 hours, east of UTC or whole hours west; for a half-hour offset west of UTC the source writes a zone designator its own decoder rejects (see Findings), and the decoder's grammar takes no other year and no zone minutes but `00` and `30`.
- EncoderIdempotent: stated for the same offsets as RoundTrip, for the same reason; for the others the source re-parses its own output through `new Date(string)`.
- JsonDateRoundTrip: stated for the same offsets as RoundTrip, for the same reason.
- DecodeEncodeAsWritten: quarter-hour zones (UTC+05:45, +08:45, +12:45) are written in a form the decoder rejects (`QuarterHourZoneBug`); the iff covers them, but no round trip is claimed for them, nor for years outside 2000-2099 or offsets of 20 hours or more.
- EncodeLocalValid: a fact about the corrected zone designator; for the encoder as written, `DecodeEncodeAsWritten` says which offsets give a valid string.
- NewPassBase: requires the argument's entries to have distinct keys, as Object.entries always gives them.
- Pass.AsBuffer: the in-place rewrite is modelled on the structure's field lists only; the live FieldsMap objects a caller may hold are not, as for the getters above.
