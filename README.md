# factory-calc: raw game-data ingestion, modelled in Dafny

factory-calc reads the game-data export of Satisfactory. The export is a JSON
array of *class groups*. Each group is an object whose `"NativeClass"` key holds a
tag naming a game class, and whose `"Classes"` key holds that class's records.
The layer modelled here is `src/raw/model.rs`. It turns such a document into
typed Rust values:

- **`ClassGroup`** is an adjacently tagged union. The tag key is `NativeClass` and
  the payload key is `Classes`.
  - The tag `Class'/Script/FactoryGame.FGItemDescriptor'` gives
    `ItemDescriptors(Vec<ItemDescriptor>)`.
  - The tag `Class'/Script/FactoryGame.FGRecipe'` gives `Recipes(Vec<Recipe>)`.
  - Any other tag gives `IgnoredVariant`, and its payload is skipped.
- **`ItemDescriptor`** keeps the `ClassName` and `mDisplayName` strings.
- **`Recipe`** keeps these fields:
  - `ClassName`, `mDisplayName`, `mIngredients` and `mProduct`, as strings;
  - `mManufactoringDuration`, spelled as the export spells it. The export gives this
    number as a quoted string. A custom visitor parses that string with Rust's
    `f64::from_str`.
- Object keys that no schema names are ignored.

The model works on already-parsed JSON values (`Json.Json`). Decoding returns a
`Result` whose error side follows serde's error kinds:

- a missing field;
- a value of the wrong JSON type, together with what was expected;
- an invalid value, together with the text that was rejected.

The float coercion is modelled from the grammar of `f64::from_str`:

- an optional sign;
- then either a case-insensitive `inf`, `infinity` or `nan`, or a decimal number
  with an optional point and an optional exponent.

A decimal literal is kept as a parse tree (`FloatLiteral.Literal`). Its exact
value is a `real`.

Modules:

- `Wrappers` holds `Option`.
- `Json` holds JSON values and their kinds.
- `Decoding` holds the error type, `Result`, and decoding of strings and sequences.
- `FloatLiteral` holds the float grammar, its printer and parser, and its value.
- `Model` holds the types and decoders of `model.rs`.
- `ModelProperties` holds lemmas about the decoders.
- `Fixtures` holds the repository's test cases over explicit JSON values.

The model follows Rust 1.55 or later, whose `f64::from_str` accepts `inf`,
`infinity` and `nan` in any letter case; earlier releases accepted fewer
spellings. For the adjacent tag it follows serde releases that read
the tag value as a variant identifier.

Three behaviours of the code worth stating:

- `mManufactoringDuration` may be `inf`, `infinity` or `nan` in any letter case.
  `f64::from_str` accepts these spellings, so the duration is not required to be
  finite.
- Under an unknown tag, the `Classes` payload may be of any shape or absent
  altogether. The `other` variant goes through `ignore_contents`, which accepts
  every value. serde's adjacently tagged visitor also accepts a unit-like variant
  without content.
- An error in a group array carries the error of the first bad group and no index.

## Model

| member | source | states |
|---|---|---|
| Decoding.DecodeString | src/raw/model.rs:19-22 | A string field decodes exactly when the value is a JSON string, to that string. Otherwise the error is a type error naming the found kind and "a string". |
| Decoding.DecodeEach | src/raw/model.rs:9-11 | A `Vec<T>` payload decodes exactly when every element decodes, to the element-wise results in order. On failure it reports the error of the first element that fails. |
| Decoding.DecodeEachFailsAt | src/raw/model.rs:9-11 | If element k is the first that fails, decoding the sequence fails with exactly element k's error. |
| Decoding.DecodeVec | src/raw/model.rs:9-11 | A non-array where a `Vec` is expected is a type error expecting a sequence. An array decodes element by element, as `DecodeEach`. |
| FloatLiteral.IndexOfAny | src/raw/model.rs:71 | Finds the first position holding one of the given characters, or the length if there is none. The exponent marker and the decimal point are located this way. |
| FloatLiteral.ScanNumber | src/raw/model.rs:71 | An unsigned decimal body that scans yields a well-formed, sign-free literal. The mantissa text and exponent text of that literal concatenate back to the body. |
| FloatLiteral.ScanMantissa | src/raw/model.rs:71 | A mantissa that scans yields a well-formed literal without sign or exponent, whose mantissa text is the input. |
| FloatLiteral.SplitMantissa | src/raw/model.rs:71 | Cutting a mantissa at its first point loses nothing: the parts and the point rebuild the mantissa. It reports a point exactly when the mantissa holds one, and the part before the cut holds no point. |
| FloatLiteral.Scan | src/raw/model.rs:71 | Everything the decimal scanner of `f64::from_str` accepts is the text of a well-formed literal. That literal is the one the scanner returns. |
| FloatLiteral.ScannedStart | src/raw/model.rs:71 | After its optional sign, a text the scanner accepts starts with a digit or a decimal point. |
| FloatLiteral.PointPosition | src/raw/model.rs:71 | The only decimal point in a literal's text sits right after the sign and the integer digits, and only when the literal has a point. |
| FloatLiteral.ScannedPointIsUnique | src/raw/model.rs:71 | A text the scanner accepts holds at most one decimal point. |
| FloatLiteral.ScanRender | src/raw/model.rs:71 | Round trip: scanning the text of any well-formed literal returns that literal. |
| FloatLiteral.ParseFloat | src/raw/model.rs:71 | `f64::from_str`: it accepts a string if and only if, after an optional sign, it is an infinity or NaN spelling (in any letter case) or the scanner accepts it. Infinity keeps the sign, NaN is NaN, and a finite result is the exact value of the scanned literal. |
| FloatLiteral.RenderedIsNumber | src/raw/model.rs:71 | The text of a well-formed literal is no special spelling, and the scanner returns that literal for it. |
| FloatLiteral.ParseRendered | src/raw/model.rs:71-73 | The text of every well-formed decimal literal parses. Its value is the literal's exact value: digits scaled by the exponent, with the fraction's length subtracted. |
| FloatLiteral.ParseFiniteSound | src/raw/model.rs:71-73 | Every finite value the parser returns is the value of some well-formed literal whose text is the input. |
| FloatLiteral.ParseFloatAccepts | src/raw/model.rs:71-76 | The parser accepts a string if and only if, after an optional sign, it is an infinity or NaN spelling, or it is the text of a well-formed decimal literal. |
| FloatLiteral.DigitsConcat | src/raw/model.rs:71 | The value of a digit string is positional: a concatenation is the left value times ten to the right length, plus the right value. |
| FloatLiteral.ScaleAdd | src/raw/model.rs:71 | Scaling by one power of ten and then another equals scaling once by their sum. |
| FloatLiteral.LiteralValue | src/raw/model.rs:71 | The exact value of a decimal literal is never negative without a minus sign and never positive with one. It is zero exactly when every digit is `0`, so `-0.0` denotes zero. |
| FloatLiteral.DigitsZero | src/raw/model.rs:71 | A digit string denotes zero exactly when every digit is `0`. |
| FloatLiteral.ScaleKeepsSign | src/raw/model.rs:71 | Scaling by a power of ten keeps a positive number positive and zero zero. |
| FloatLiteral.LiteralValueIsPositional | src/raw/model.rs:71 | A literal's value equals its integer digits plus its fraction digits, each at its place value, then scaled by the exponent and signed. |
| FloatLiteral.FractionShift | src/raw/model.rs:71 | Scaling all the digits down by the fraction's length gives the integer part plus the fraction digits at their place value. |
| Model.VisitStr | src/raw/model.rs:67-77 | The string visitor succeeds exactly when `f64::from_str` accepts the text, with the parsed value. Otherwise it reports an invalid-value error carrying the rejected text and the "quoted float" expectation. |
| Model.ParseStringedFloat | src/raw/model.rs:81-87 | The duration coercion accepts only JSON strings and hands them to the visitor. Any other kind, native numbers included, is a type error expecting a quoted float. |
| Model.DecodeField | src/raw/model.rs:17-41 | A string field accepts exactly a JSON string, taken as it is, and otherwise reports a type error expecting a string. The quoted-float field accepts exactly a JSON string that `f64::from_str` parses, to the parsed value. Otherwise it reports an invalid-value error with the string, or a type error for a non-string. |
| Model.FirstBadField | src/raw/model.rs:17-41 | Finds the first schema field that is present with a value of the wrong type, or reports that there is none. |
| Model.FirstMissingField | src/raw/model.rs:17-41 | Finds the first schema field absent from the object, or reports that there is none. |
| Model.DecodeFields | src/raw/model.rs:17-41 | Derived struct decoding succeeds if and only if every field is present and well-typed, with the decoded values in declaration order. A missing-field error names an absent schema field and arises only when no present field is wrong-typed. Any other error is that of a wrong-typed field. |
| ModelProperties.FieldsReportFirstBad | src/raw/model.rs:17-41 | A record whose k-th field is the first wrong-typed one fails with that field's error, whatever is missing. |
| ModelProperties.FieldsReportFirstMissing | src/raw/model.rs:17-41 | A record with no wrong-typed field, whose k-th field is the first absent one, fails with that field missing. |
| Model.DecodeItemDescriptor | src/raw/model.rs:17-23 | Succeeds if and only if the value is an object with string `ClassName` and `mDisplayName`, and yields those two strings. A non-object is a type error expecting struct ItemDescriptor. An object that fails reports the error of its fields: the first wrong-typed field's, or else the first missing field's. |
| Model.DecodeRecipe | src/raw/model.rs:26-41 | Succeeds if and only if the object has string `ClassName`, `mDisplayName`, `mIngredients` and `mProduct`, and a string `mManufactoringDuration` that parses as f64. It yields the four strings and the parsed duration. A non-object is a type error expecting struct Recipe. An object that fails reports the error of its fields. |
| Model.IgnoreContents | src/raw/model.rs:44-55 | Skipping the content of an unknown group never fails, whatever the content is. |
| Model.DecodeClassGroup | src/raw/model.rs:5-14 | The tag decides the variant, in both directions. An unknown tag gives `IgnoredVariant` whatever the payload. A missing tag is reported as missing `NativeClass`, and a non-string tag as a type error expecting a variant identifier. A known tag without `Classes` is reported as missing `Classes`, and a known tag whose `Classes` is not an array as a type error expecting a sequence. A non-object is a type error. |
| Model.DecodeClassGroups | src/raw/model.rs:111-115 | `Vec<ClassGroup>` decodes if and only if the value is an array whose every group decodes, to one group per element in order. Otherwise it reports the first failing group's error, or a type error for a non-array. |
| ModelProperties.FirstBadFieldAgrees | src/raw/model.rs:17-41 | Two objects that agree on the schema's keys have the same first wrong-typed field. |
| ModelProperties.FirstMissingFieldAgrees | src/raw/model.rs:17-41 | Two objects that agree on the schema's keys have the same first missing field. |
| ModelProperties.DecodeFieldsReadsOnlySchemaKeys | src/raw/model.rs:17-41 | Struct decoding depends only on the keys the schema names: objects that agree there decode identically, errors included. |
| ModelProperties.ItemDescriptorIgnoresExtraKeys | src/raw/model.rs:17-23 | Adding keys other than `ClassName` and `mDisplayName` does not change how an item descriptor decodes. |
| ModelProperties.RecipeIgnoresExtraKeys | src/raw/model.rs:26-41 | Adding keys outside the five recipe fields does not change how a recipe decodes. |
| ModelProperties.RecipeRejectsUnquotedDuration | src/raw/model.rs:36-40 | A recipe whose duration is a native number, or any non-string, fails with a type error expecting a quoted float. |
| ModelProperties.RecipeRejectsUnparsableDuration | src/raw/model.rs:67-77 | A recipe whose duration string does not parse fails with an invalid-value error carrying that string. |
| ModelProperties.RecipeReportsMissingField | src/raw/model.rs:26-41 | When exactly one recipe field is absent and the rest are well-typed, the error names that field. |
| ModelProperties.ItemDescriptorReportsBadField | src/raw/model.rs:17-23 | A descriptor whose first wrong-typed field holds a non-string fails with a type error expecting a string, whatever is missing. |
| ModelProperties.ItemDescriptorReportsMissingField | src/raw/model.rs:17-23 | A descriptor with no wrong-typed field fails with its first absent field, `ClassName` before `mDisplayName`, reported by name. |
| ModelProperties.CoercionAcceptsLiterals | src/raw/model.rs:81-87 | Every well-formed decimal literal given as a JSON string is coerced to its exact value. |
| ModelProperties.CoercionRejectsNonLiterals | src/raw/model.rs:67-77 | A string that is neither a special spelling nor the text of any well-formed literal is rejected with an invalid-value error. |
| ModelProperties.DispatchItemDescriptors | src/raw/model.rs:8-9 | Under the item-descriptor tag, the group decodes exactly when every element decodes as an item descriptor. It yields one descriptor per element. |
| ModelProperties.DispatchRecipes | src/raw/model.rs:10-11 | Under the recipe tag, the group decodes exactly when every element decodes as a recipe. It yields one recipe per element. |
| ModelProperties.DescriptorGroupFailsAtFirstBadDescriptor | src/raw/model.rs:8-9 | Under the item-descriptor tag, the first descriptor that fails decides the group's error. |
| ModelProperties.RecipeGroupFailsAtFirstBadRecipe | src/raw/model.rs:10-11 | Under the recipe tag, the first recipe that fails decides the group's error. |
| ModelProperties.UnknownTagIgnoresPayload | src/raw/model.rs:12-13 | Under an unknown tag, any two payloads give the same result, `IgnoredVariant`. |
| ModelProperties.ExportFailsAtFirstBadGroup | src/raw/model.rs:111-115 | If group k is the first that fails, the whole export fails with group k's error. |
| ModelProperties.ExportOfDecodedGroups | src/raw/model.rs:111-115 | If every group decodes, the export decodes to exactly those groups, in order. |
| Fixtures.ItemDescriptorFixture | src/raw/model.rs:93-99 | The circuit-board descriptor decodes to class `Desc_CircuitBoard_C`, named "Circuit Board". |
| Fixtures.RecipeFixture | src/raw/model.rs:101-108 | The steel-beam recipe decodes to class `Recipe_SteelBeam_C`, named "Steel Beam", with duration 4. |
| Fixtures.ClassGroupsFixture | src/raw/model.rs:110-115 | A three-group export decodes to three groups, in order: an ignored conveyor group, the descriptors, the recipes. |
| Fixtures.ParseFour | src/raw/model.rs:107 | The duration text "4" parses to the finite value 4. |
| Fixtures.ParseNegativeHalf | src/raw/model.rs:71 | "-0.5" parses to -0.5. |
| Fixtures.ParseExponent | src/raw/model.rs:71 | "2.5E+1" parses to 25. |
| Fixtures.RejectLetters | src/raw/model.rs:71-75 | A word that is not a number is rejected. |
| Fixtures.RejectTwoPoints | src/raw/model.rs:71-75 | Text with two decimal points is rejected. |
| Fixtures.RejectEmpty | src/raw/model.rs:71-75 | The empty string is rejected. |
| Fixtures.RejectBareExponent | src/raw/model.rs:71-75 | An exponent marker without exponent digits is rejected. |
| Fixtures.AcceptSpecialSpellings | src/raw/model.rs:71-73 | Infinity and NaN spellings are accepted, in any case and with a sign. |
| Fixtures.RejectNativeNumber | src/raw/model.rs:85 | A native JSON number as duration is a type error. |
| Fixtures.TagIsCaseSensitive | src/raw/model.rs:8-13 | A tag that differs from a known tag only in letter case is an ignored group. |
| Fixtures.ConveyorGroupIgnored | src/raw/model.rs:12-13 | A conveyor-belt group whose payload is a number is ignored. |
| Fixtures.DescriptorGroupDecodes | src/raw/model.rs:8-9 | A group tagged as item descriptors decodes to its descriptors. |
| Fixtures.RecipeGroupDecodes | src/raw/model.rs:10-11 | A group tagged as recipes decodes to its recipes. |
| Fixtures.NoProductFails | src/raw/model.rs:34-35 | A recipe without `mProduct` fails with that field missing. |
| Fixtures.BrokenRecipeGroupFails | src/raw/model.rs:10-11 | A recipe group holding the broken recipe fails with the recipe's error. |
| Fixtures.ExportFailsFast | src/raw/model.rs:111-115 | An export of an ignored group, the broken recipe group and a `null` fails with the broken group's error. The `null` after it is never examined. |

## Left out

- Parsing JSON text and loading the fixture files with `include_str!`. The model
  starts from parsed values. The repository's fixture files are not part of this
  model; the fixtures here are written out as explicit values instead.
- Rounding to binary64. A finite duration is the exact rational value of its
  literal. Overflow to infinity, underflow to zero and the sign of zero are not
  modelled.
- serde's sequence forms. serde also accepts a struct as a JSON array of its
  fields in order, and an adjacently tagged enum as a `[tag, content]` pair. The
  model treats an array in those places as a type error.
- Duplicate keys in one object. A parsed object is a map and cannot hold them.
- The text of error messages and their line and column positions.
- A non-string `NativeClass` under serde releases that read the adjacent tag
  through `deserialize_enum`. There serde_json reports a syntax error rather
  than the type error against a variant identifier that the model gives.
- `Model.IgnoreContents`: the `.unwrap()` panic is not modelled. On malformed text
  the source's `deserialize_ignored_any` could fail and then panic, but a parsed
  value can always be skipped.
- The meaning of `mIngredients` and `mProduct`. The source keeps both as raw
  strings, and so does the model.
- `Model.DecodeFields`: when several present fields have the wrong type, the model
  reports the first in declaration order. serde reports the first it meets in the
  document, which can differ. With at most one wrong-typed field the two agree,
  as does missing-field reporting, which serde does in declaration order.
