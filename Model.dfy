/**
  The typed records of the game-data export and their decoding from a parsed
  JSON value (src/raw/model.rs).

  The export is an array of groups. A group is an adjacently tagged union: its
  tag is the string under "NativeClass" and its payload sits under "Classes".
  Two tags select a list of records; every other tag selects `IgnoredVariant`
  and the payload is skipped. A recipe's manufacturing duration is written as
  a quoted number and is coerced from that string.
*/
module Model {
  import opened Wrappers
  import opened Json
  import opened Decoding
  import opened FloatLiteral

  const TagKey := "NativeClass"
  const ContentKey := "Classes"
  const ItemDescriptorTag := "Class'/Script/FactoryGame.FGItemDescriptor'"
  const RecipeTag := "Class'/Script/FactoryGame.FGRecipe'"

  datatype ItemDescriptor = ItemDescriptor(className: string, displayName: string)

  /** The ingredients and the product are kept as the raw text of the export. */
  datatype Recipe = Recipe(
    className: string,
    displayName: string,
    ingredientsRaw: string,
    productRaw: string,
    manufacturingDuration: Float)

  datatype ClassGroup =
    | ItemDescriptors(descriptors: seq<ItemDescriptor>)
    | Recipes(recipes: seq<Recipe>)
    | IgnoredVariant

  // ---------------------------------------------------------------------------
  // The quoted-number coercion

  /**
    A string handed to the coercion: its number if it parses as one, and
    otherwise an invalid-value error that carries the string itself.
  */
  function VisitStr(v: string): (r: Result<Float>)
    ensures r.Ok? <==> ParseFloat(v).Some?
    ensures r.Ok? ==> r.value == ParseFloat(v).value
    ensures r.Err? ==> r.error == InvalidValue(v, AQuotedFloat)
  {
    match ParseFloat(v)
    case Some(f) => Ok(f)
    case None => Err(InvalidValue(v, AQuotedFloat))
  }

  /**
    The duration field: only a JSON string reaches `VisitStr`; any other kind
    of value, a JSON number included, is a type error.
  */
  function ParseStringedFloat(j: Json): (r: Result<Float>)
    ensures j.Str? ==> r == VisitStr(j.s)
    ensures !j.Str? ==> r == Err(InvalidType(KindOf(j), AQuotedFloat))
  {
    match j
    case Str(v) => VisitStr(v)
    case _ => Err(InvalidType(KindOf(j), AQuotedFloat))
  }

  // ---------------------------------------------------------------------------
  // Record schemas

  /** How a field's value is read: as a string, or as a quoted number. */
  datatype FieldKind = Text | QuotedFloat

  datatype FieldValue = TextValue(text: string) | FloatValue(float: Float)

  /** A record schema: the JSON key of each field, in declaration order, and how it is read. */
  type Schema = seq<(string, FieldKind)>

  const ItemDescriptorSchema: Schema := [
    ("ClassName", Text),
    ("mDisplayName", Text)
  ]

  const RecipeSchema: Schema := [
    ("ClassName", Text),
    ("mDisplayName", Text),
    ("mIngredients", Text),
    ("mProduct", Text),
    ("mManufactoringDuration", QuotedFloat)
  ]

  /**
    One field's value: a string field takes any JSON string as it is; a quoted
    number field takes a JSON string that parses as a float. Anything else is
    the error of the string or of the coercion.
  */
  function DecodeField(kind: FieldKind, j: Json): (r: Result<FieldValue>)
    ensures r.Ok? ==> (r.value.TextValue? <==> kind == Text)
    ensures kind == Text ==> (r.Ok? <==> j.Str?)
    ensures kind == Text && j.Str? ==> r == Ok(TextValue(j.s))
    ensures kind == Text && !j.Str? ==> r == Err(InvalidType(KindOf(j), AString))
    ensures kind == QuotedFloat ==> (r.Ok? <==> j.Str? && ParseFloat(j.s).Some?)
    ensures kind == QuotedFloat && r.Ok? ==> r.value == FloatValue(ParseFloat(j.s).value)
    ensures kind == QuotedFloat && r.Err? && j.Str? ==> r.error == InvalidValue(j.s, AQuotedFloat)
    ensures kind == QuotedFloat && !j.Str? ==> r == Err(InvalidType(KindOf(j), AQuotedFloat))
  {
    match kind
    case Text =>
      var s :- DecodeString(j);
      Ok(TextValue(s))
    case QuotedFloat =>
      var f :- ParseStringedFloat(j);
      Ok(FloatValue(f))
  }

  /** The field is present and holds a value of the wrong kind or an unparsable number. */
  predicate IsBadField(m: map<string, Json>, field: (string, FieldKind)) {
    field.0 in m && DecodeField(field.1, m[field.0]).Err?
  }

  predicate IsGoodField(m: map<string, Json>, field: (string, FieldKind)) {
    field.0 in m && DecodeField(field.1, m[field.0]).Ok?
  }

  /** The position of the first present field that fails to decode. */
  function FirstBadField(schema: Schema, m: map<string, Json>): (r: Option<nat>)
    ensures r.Some? ==> r.value < |schema| && IsBadField(m, schema[r.value])
    ensures r.Some? ==> forall i :: 0 <= i < r.value ==> !IsBadField(m, schema[i])
    ensures r.None? ==> forall i :: 0 <= i < |schema| ==> !IsBadField(m, schema[i])
  {
    if schema == [] then None
    else if IsBadField(m, schema[0]) then Some(0)
    else
      match FirstBadField(schema[1..], m)
      case None => None
      case Some(i) => Some(i + 1)
  }

  /** The position of the first field whose key is absent. */
  function FirstMissingField(schema: Schema, m: map<string, Json>): (r: Option<nat>)
    ensures r.Some? ==> r.value < |schema| && schema[r.value].0 !in m
    ensures r.Some? ==> forall i :: 0 <= i < r.value ==> schema[i].0 in m
    ensures r.None? ==> forall i :: 0 <= i < |schema| ==> schema[i].0 in m
  {
    if schema == [] then None
    else if schema[0].0 !in m then Some(0)
    else
      match FirstMissingField(schema[1..], m)
      case None => None
      case Some(i) => Some(i + 1)
  }

  /**
    The fields of a record, decoded from the members of a JSON object. Keys the
    schema does not name are skipped. A field that is present but cannot be
    decoded is reported before any field that is missing.
  */
  function DecodeFields(schema: Schema, m: map<string, Json>): (r: Result<seq<FieldValue>>)
    ensures r.Ok? <==> forall i :: 0 <= i < |schema| ==> IsGoodField(m, schema[i])
    ensures r.Ok? ==> |r.value| == |schema|
    ensures r.Ok? ==> forall i :: 0 <= i < |schema| ==> DecodeField(schema[i].1, m[schema[i].0]) == Ok(r.value[i])
    ensures r.Err? && r.error.MissingField? ==>
      && (forall i :: 0 <= i < |schema| ==> !IsBadField(m, schema[i]))
      && r.error.field !in m
      && exists i :: 0 <= i < |schema| && schema[i].0 == r.error.field
    ensures r.Err? && !r.error.MissingField? ==>
      exists i :: 0 <= i < |schema| && IsBadField(m, schema[i]) && r.error == DecodeField(schema[i].1, m[schema[i].0]).error
  {
    match FirstBadField(schema, m)
    case Some(i) => Err(DecodeField(schema[i].1, m[schema[i].0]).error)
    case None =>
      match FirstMissingField(schema, m)
      case Some(i) => Err(MissingField(schema[i].0))
      case None =>
        Ok(seq(|schema|, i requires 0 <= i < |schema| => DecodeField(schema[i].1, m[schema[i].0]).value))
  }

  // ---------------------------------------------------------------------------
  // Records

  /** An item descriptor: the strings under "ClassName" and "mDisplayName", exactly. */
  function DecodeItemDescriptor(j: Json): (r: Result<ItemDescriptor>)
    ensures r.Ok? <==>
      && j.Obj?
      && "ClassName" in j.members && j.members["ClassName"].Str?
      && "mDisplayName" in j.members && j.members["mDisplayName"].Str?
    ensures r.Ok? ==> r.value == ItemDescriptor(j.members["ClassName"].s, j.members["mDisplayName"].s)
    ensures !j.Obj? ==> r == Err(InvalidType(KindOf(j), AStruct("ItemDescriptor")))
    ensures j.Obj? && r.Err? ==>
      DecodeFields(ItemDescriptorSchema, j.members).Err? && r.error == DecodeFields(ItemDescriptorSchema, j.members).error
  {
    match j
    case Obj(m) =>
      var fields :- DecodeFields(ItemDescriptorSchema, m);
      Ok(ItemDescriptor(fields[0].text, fields[1].text))
    case _ => Err(InvalidType(KindOf(j), AStruct("ItemDescriptor")))
  }

  /**
    A recipe: four strings and a duration that is a string holding a number;
    all five keys are required.
  */
  function DecodeRecipe(j: Json): (r: Result<Recipe>)
    ensures r.Ok? <==>
      && j.Obj?
      && "ClassName" in j.members && j.members["ClassName"].Str?
      && "mDisplayName" in j.members && j.members["mDisplayName"].Str?
      && "mIngredients" in j.members && j.members["mIngredients"].Str?
      && "mProduct" in j.members && j.members["mProduct"].Str?
      && "mManufactoringDuration" in j.members && j.members["mManufactoringDuration"].Str?
      && ParseFloat(j.members["mManufactoringDuration"].s).Some?
    ensures r.Ok? ==> r.value == Recipe(
      j.members["ClassName"].s,
      j.members["mDisplayName"].s,
      j.members["mIngredients"].s,
      j.members["mProduct"].s,
      ParseFloat(j.members["mManufactoringDuration"].s).value)
    ensures !j.Obj? ==> r == Err(InvalidType(KindOf(j), AStruct("Recipe")))
    ensures j.Obj? && r.Err? ==>
      DecodeFields(RecipeSchema, j.members).Err? && r.error == DecodeFields(RecipeSchema, j.members).error
  {
    match j
    case Obj(m) =>
      var fields :- DecodeFields(RecipeSchema, m);
      Ok(Recipe(fields[0].text, fields[1].text, fields[2].text, fields[3].text, fields[4].float))
    case _ => Err(InvalidType(KindOf(j), AStruct("Recipe")))
  }

  // ---------------------------------------------------------------------------
  // Groups

  /** The payload of an unrecognised group is skipped; any parsed value is accepted. */
  function IgnoreContents(content: Json): (r: Result<()>)
    ensures r.Ok?
  {
    Ok(())
  }

  /**
    One group. The tag must be present and be a string. The item-descriptor tag
    and the recipe tag decode the payload as a list of those records, and then
    the payload is required; any other tag gives `IgnoredVariant`, whatever the
    payload is and whether or not it is there.
  */
  function DecodeClassGroup(j: Json): (r: Result<ClassGroup>)
    ensures r.Ok? ==> j.Obj? && TagKey in j.members && j.members[TagKey].Str?
    ensures r.Ok? ==> (r.value.ItemDescriptors? <==> j.members[TagKey].s == ItemDescriptorTag)
    ensures r.Ok? ==> (r.value.Recipes? <==> j.members[TagKey].s == RecipeTag)
    ensures j.Obj? && TagKey in j.members && j.members[TagKey].Str?
      && j.members[TagKey].s != ItemDescriptorTag && j.members[TagKey].s != RecipeTag
      ==> r == Ok(IgnoredVariant)
    ensures j.Obj? && TagKey !in j.members ==> r == Err(MissingField(TagKey))
    ensures j.Obj? && TagKey in j.members && !j.members[TagKey].Str?
      ==> r == Err(InvalidType(KindOf(j.members[TagKey]), AVariantIdentifier))
    ensures j.Obj? && TagKey in j.members && ContentKey !in j.members
      && (j.members[TagKey] == Str(ItemDescriptorTag) || j.members[TagKey] == Str(RecipeTag))
      ==> r == Err(MissingField(ContentKey))
    ensures j.Obj? && TagKey in j.members && ContentKey in j.members
      && (j.members[TagKey] == Str(ItemDescriptorTag) || j.members[TagKey] == Str(RecipeTag))
      && !j.members[ContentKey].Arr?
      ==> r == Err(InvalidType(KindOf(j.members[ContentKey]), ASequence))
    ensures !j.Obj? ==> r == Err(InvalidType(KindOf(j), AStruct("ClassGroup")))
  {
    match j
    case Obj(m) =>
      if TagKey !in m then Err(MissingField(TagKey))
      else (
        match m[TagKey]
        case Str(tag) =>
          if tag == ItemDescriptorTag then
            if ContentKey !in m then Err(MissingField(ContentKey))
            else
              var descriptors :- DecodeVec(m[ContentKey], DecodeItemDescriptor);
              Ok(ItemDescriptors(descriptors))
          else if tag == RecipeTag then
            if ContentKey !in m then Err(MissingField(ContentKey))
            else
              var recipes :- DecodeVec(m[ContentKey], DecodeRecipe);
              Ok(Recipes(recipes))
          else if ContentKey in m then
            (match IgnoreContents(m[ContentKey])
             case Ok(_) => Ok(IgnoredVariant)
             case Err(e) => Err(e))
          else
            Ok(IgnoredVariant)
        case other => Err(InvalidType(KindOf(other), AVariantIdentifier)))
    case _ => Err(InvalidType(KindOf(j), AStruct("ClassGroup")))
  }

  /**
    The whole export: an array of groups, decoded in order into one group per
    element; the first element that fails fails the whole export.
  */
  function DecodeClassGroups(j: Json): (r: Result<seq<ClassGroup>>)
    ensures r.Ok? <==> j.Arr? && forall i :: 0 <= i < |j.items| ==> DecodeClassGroup(j.items[i]).Ok?
    ensures r.Ok? ==> |r.value| == |j.items|
    ensures r.Ok? ==> forall i :: 0 <= i < |j.items| ==> r.value[i] == DecodeClassGroup(j.items[i]).value
    ensures r.Err? && j.Arr? ==>
      exists k :: IsFirstFailure(j.items, DecodeClassGroup, k) && r.error == DecodeClassGroup(j.items[k]).error
    ensures !j.Arr? ==> r == Err(InvalidType(KindOf(j), ASequence))
  {
    DecodeVec(j, DecodeClassGroup)
  }
}
