/**
  Properties of the decoders of `Model` that relate several calls or single
  out one case of their contracts.
*/
module ModelProperties {
  import opened Wrappers
  import opened Json
  import opened Decoding
  import opened FloatLiteral
  import opened Model

  // ---------------------------------------------------------------------------
  // Keys a schema does not name are ignored

  /** Two objects that hold the same values under every key the schema names. */
  ghost predicate AgreeOnSchema(schema: Schema, m: map<string, Json>, m': map<string, Json>) {
    forall i :: 0 <= i < |schema| ==>
      && (schema[i].0 in m <==> schema[i].0 in m')
      && (schema[i].0 in m ==> m[schema[i].0] == m'[schema[i].0])
  }

  lemma {:induction false} FirstBadFieldAgrees(schema: Schema, m: map<string, Json>, m': map<string, Json>)
    requires AgreeOnSchema(schema, m, m')
    ensures FirstBadField(schema, m) == FirstBadField(schema, m')
  {
    if schema != [] {
      assert AgreeOnSchema(schema[1..], m, m') by {
        forall i | 0 <= i < |schema[1..]|
          ensures schema[1..][i].0 in m <==> schema[1..][i].0 in m'
          ensures schema[1..][i].0 in m ==> m[schema[1..][i].0] == m'[schema[1..][i].0]
        {
          assert schema[1..][i] == schema[i + 1];
        }
      }
      FirstBadFieldAgrees(schema[1..], m, m');
      assert IsBadField(m, schema[0]) == IsBadField(m', schema[0]);
    }
  }

  lemma {:induction false} FirstMissingFieldAgrees(schema: Schema, m: map<string, Json>, m': map<string, Json>)
    requires AgreeOnSchema(schema, m, m')
    ensures FirstMissingField(schema, m) == FirstMissingField(schema, m')
  {
    if schema != [] {
      assert AgreeOnSchema(schema[1..], m, m') by {
        forall i | 0 <= i < |schema[1..]|
          ensures schema[1..][i].0 in m <==> schema[1..][i].0 in m'
          ensures schema[1..][i].0 in m ==> m[schema[1..][i].0] == m'[schema[1..][i].0]
        {
          assert schema[1..][i] == schema[i + 1];
        }
      }
      FirstMissingFieldAgrees(schema[1..], m, m');
      assert (schema[0].0 in m) == (schema[0].0 in m');
    }
  }

  /** A record decodes the same, value or error, from any two objects that agree on its schema's keys. */
  lemma DecodeFieldsReadsOnlySchemaKeys(schema: Schema, m: map<string, Json>, m': map<string, Json>)
    requires AgreeOnSchema(schema, m, m')
    ensures DecodeFields(schema, m) == DecodeFields(schema, m')
  {
    FirstBadFieldAgrees(schema, m, m');
    FirstMissingFieldAgrees(schema, m, m');
    var r, r' := DecodeFields(schema, m), DecodeFields(schema, m');
    if r.Ok? {
      assert |r.value| == |r'.value|;
      forall i | 0 <= i < |schema| ensures r.value[i] == r'.value[i] {
        assert DecodeField(schema[i].1, m[schema[i].0]) == Ok(r.value[i]);
        assert DecodeField(schema[i].1, m'[schema[i].0]) == Ok(r'.value[i]);
        assert m[schema[i].0] == m'[schema[i].0];
      }
      assert r.value == r'.value;
    }
  }

  /** Extra keys beside "ClassName" and "mDisplayName" change nothing about an item descriptor. */
  lemma ItemDescriptorIgnoresExtraKeys(m: map<string, Json>, extra: map<string, Json>)
    requires "ClassName" !in extra && "mDisplayName" !in extra
    ensures DecodeItemDescriptor(Obj(m + extra)) == DecodeItemDescriptor(Obj(m))
  {
    DecodeFieldsReadsOnlySchemaKeys(ItemDescriptorSchema, m + extra, m);
  }

  /** Extra keys beside the five fields change nothing about a recipe. */
  lemma RecipeIgnoresExtraKeys(m: map<string, Json>, extra: map<string, Json>)
    requires forall i :: 0 <= i < |RecipeSchema| ==> RecipeSchema[i].0 !in extra
    ensures DecodeRecipe(Obj(m + extra)) == DecodeRecipe(Obj(m))
  {
    DecodeFieldsReadsOnlySchemaKeys(RecipeSchema, m + extra, m);
  }

  // ---------------------------------------------------------------------------
  // Errors of a recipe

  /** The four string fields of a recipe are present and hold strings. */
  ghost predicate HasRecipeStrings(m: map<string, Json>) {
    forall i :: 0 <= i < 4 ==> RecipeSchema[i].0 in m && m[RecipeSchema[i].0].Str?
  }

  /**
    A duration given as a native JSON number, or as any value that is not a
    string, is a type error of the coercion.
  */
  lemma RecipeRejectsUnquotedDuration(m: map<string, Json>)
    requires HasRecipeStrings(m)
    requires "mManufactoringDuration" in m && !m["mManufactoringDuration"].Str?
    ensures DecodeRecipe(Obj(m)) == Err(InvalidType(KindOf(m["mManufactoringDuration"]), AQuotedFloat))
  {
    DurationIsFirstBadField(m);
    assert DecodeField(QuotedFloat, m["mManufactoringDuration"]).error
        == InvalidType(KindOf(m["mManufactoringDuration"]), AQuotedFloat);
  }

  /** A duration string that is not a number is an invalid value carrying that very string. */
  lemma RecipeRejectsUnparsableDuration(m: map<string, Json>, v: string)
    requires HasRecipeStrings(m)
    requires "mManufactoringDuration" in m && m["mManufactoringDuration"] == Str(v)
    requires ParseFloat(v).None?
    ensures DecodeRecipe(Obj(m)) == Err(InvalidValue(v, AQuotedFloat))
  {
    assert DecodeField(QuotedFloat, Str(v)) == Err(InvalidValue(v, AQuotedFloat));
    DurationIsFirstBadField(m);
  }

  /** With the four strings in place, a duration that fails is the error of the whole recipe. */
  lemma DurationIsFirstBadField(m: map<string, Json>)
    requires HasRecipeStrings(m)
    requires "mManufactoringDuration" in m && DecodeField(QuotedFloat, m["mManufactoringDuration"]).Err?
    ensures DecodeRecipe(Obj(m)) == Err(DecodeField(QuotedFloat, m["mManufactoringDuration"]).error)
  {
    assert RecipeSchema[4] == ("mManufactoringDuration", QuotedFloat);
    assert IsBadField(m, RecipeSchema[4]);
    RecipeStringsAreGood(m);
    FieldsReportFirstBad(RecipeSchema, m, 4);
    RecipeReportsFieldsError(m);
  }

  /** A record whose fields fail reports the error of its fields. */
  lemma RecipeReportsFieldsError(m: map<string, Json>)
    requires DecodeFields(RecipeSchema, m).Err?
    ensures DecodeRecipe(Obj(m)) == Err(DecodeFields(RecipeSchema, m).error)
  {
  }

  lemma RecipeStringsAreGood(m: map<string, Json>)
    requires HasRecipeStrings(m)
    ensures forall i :: 0 <= i < 4 ==> IsGoodField(m, RecipeSchema[i]) && !IsBadField(m, RecipeSchema[i])
  {
    forall i | 0 <= i < 4 ensures IsGoodField(m, RecipeSchema[i]) && !IsBadField(m, RecipeSchema[i]) {
      assert RecipeSchema[i].1 == Text;
      TextFieldIsGood(m, RecipeSchema[i]);
    }
  }

  /** A string field holding a string is read without error. */
  lemma TextFieldIsGood(m: map<string, Json>, field: (string, FieldKind))
    requires field.1 == Text && field.0 in m && m[field.0].Str?
    ensures IsGoodField(m, field) && !IsBadField(m, field)
  {
  }

  /** A record's error is that of its first wrong-typed field, whatever else is missing. */
  lemma FieldsReportFirstBad(schema: Schema, m: map<string, Json>, k: nat)
    requires k < |schema| && IsBadField(m, schema[k])
    requires forall i :: 0 <= i < k ==> !IsBadField(m, schema[i])
    ensures DecodeFields(schema, m) == Err(DecodeField(schema[k].1, m[schema[k].0]).error)
  {
    assert FirstBadField(schema, m) == Some(k);
  }

  /** With no wrong-typed field, a record's error names its first missing field. */
  lemma FieldsReportFirstMissing(schema: Schema, m: map<string, Json>, k: nat)
    requires k < |schema| && schema[k].0 !in m
    requires forall i :: 0 <= i < k ==> schema[i].0 in m
    requires forall i :: 0 <= i < |schema| ==> !IsBadField(m, schema[i])
    ensures DecodeFields(schema, m) == Err(MissingField(schema[k].0))
  {
    assert FirstBadField(schema, m).None?;
    assert FirstMissingField(schema, m) == Some(k);
  }

  /**
    When every present field of a recipe decodes and exactly one of the five
    keys is absent, the error names that key.
  */
  lemma RecipeReportsMissingField(m: map<string, Json>, k: nat)
    requires k < |RecipeSchema| && RecipeSchema[k].0 !in m
    requires forall i :: 0 <= i < |RecipeSchema| && i != k ==> IsGoodField(m, RecipeSchema[i])
    ensures DecodeRecipe(Obj(m)) == Err(MissingField(RecipeSchema[k].0))
  {
    forall i | 0 <= i < |RecipeSchema| ensures !IsBadField(m, RecipeSchema[i]) {
      if i != k { assert IsGoodField(m, RecipeSchema[i]); }
    }
    FieldsReportFirstMissing(RecipeSchema, m, k);
  }

  /** A descriptor whose k-th field is the first wrong-typed one fails with a type error expecting a string. */
  lemma ItemDescriptorReportsBadField(m: map<string, Json>, k: nat)
    requires k < |ItemDescriptorSchema| && ItemDescriptorSchema[k].0 in m
    requires !m[ItemDescriptorSchema[k].0].Str?
    requires forall i :: 0 <= i < k ==> !IsBadField(m, ItemDescriptorSchema[i])
    ensures DecodeItemDescriptor(Obj(m)) == Err(InvalidType(KindOf(m[ItemDescriptorSchema[k].0]), AString))
  {
    assert ItemDescriptorSchema[k].1 == Text;
    FieldsReportFirstBad(ItemDescriptorSchema, m, k);
  }

  /** A descriptor with no wrong-typed field, whose k-th field is the first absent one, names that field. */
  lemma ItemDescriptorReportsMissingField(m: map<string, Json>, k: nat)
    requires k < |ItemDescriptorSchema| && ItemDescriptorSchema[k].0 !in m
    requires forall i :: 0 <= i < |ItemDescriptorSchema| ==> !IsBadField(m, ItemDescriptorSchema[i])
    requires forall i :: 0 <= i < k ==> ItemDescriptorSchema[i].0 in m
    ensures DecodeItemDescriptor(Obj(m)) == Err(MissingField(ItemDescriptorSchema[k].0))
  {
    FieldsReportFirstMissing(ItemDescriptorSchema, m, k);
  }

  // ---------------------------------------------------------------------------
  // The quoted-number coercion

  /** The text of every number literal is coerced to the exact value it denotes. */
  lemma CoercionAcceptsLiterals(lit: Literal)
    requires WellFormed(lit)
    ensures ParseStringedFloat(Str(Render(lit))) == Ok(Finite(LiteralValue(lit)))
  {
    ParseRendered(lit);
  }

  /**
    A string that is neither a special spelling nor the text of any number
    literal is rejected with an invalid-value error that carries the string;
    no default value is ever substituted.
  */
  lemma CoercionRejectsNonLiterals(v: string)
    requires !IsInfinityWord(SplitSign(v).1) && !IsNaNWord(SplitSign(v).1)
    requires forall lit :: WellFormed(lit) ==> Render(lit) != v
    ensures ParseStringedFloat(Str(v)) == Err(InvalidValue(v, AQuotedFloat))
  {
    ParseFloatAccepts(v);
  }

  // ---------------------------------------------------------------------------
  // Dispatch on the tag

  /** The item-descriptor tag decodes the payload element by element, in order. */
  lemma DispatchItemDescriptors(m: map<string, Json>, items: seq<Json>)
    requires TagKey in m && m[TagKey] == Str(ItemDescriptorTag)
    requires ContentKey in m && m[ContentKey] == Arr(items)
    ensures DecodeClassGroup(Obj(m)).Ok? <==> forall i :: 0 <= i < |items| ==> DecodeItemDescriptor(items[i]).Ok?
    ensures DecodeClassGroup(Obj(m)).Ok? ==>
      && DecodeClassGroup(Obj(m)).value.ItemDescriptors?
      && |DecodeClassGroup(Obj(m)).value.descriptors| == |items|
      && forall i :: 0 <= i < |items| ==>
           DecodeClassGroup(Obj(m)).value.descriptors[i] == DecodeItemDescriptor(items[i]).value
  {
  }

  /** The recipe tag decodes the payload element by element, in order. */
  lemma DispatchRecipes(m: map<string, Json>, items: seq<Json>)
    requires TagKey in m && m[TagKey] == Str(RecipeTag)
    requires ContentKey in m && m[ContentKey] == Arr(items)
    ensures DecodeClassGroup(Obj(m)).Ok? <==> forall i :: 0 <= i < |items| ==> DecodeRecipe(items[i]).Ok?
    ensures DecodeClassGroup(Obj(m)).Ok? ==>
      && DecodeClassGroup(Obj(m)).value.Recipes?
      && |DecodeClassGroup(Obj(m)).value.recipes| == |items|
      && forall i :: 0 <= i < |items| ==>
           DecodeClassGroup(Obj(m)).value.recipes[i] == DecodeRecipe(items[i]).value
  {
  }

  /** Under any other tag the payload is never looked at: any two payloads give the same group. */
  lemma UnknownTagIgnoresPayload(m: map<string, Json>, tag: string, p: Json, q: Json)
    requires tag != ItemDescriptorTag && tag != RecipeTag
    ensures DecodeClassGroup(Obj(m[TagKey := Str(tag)][ContentKey := p]))
         == DecodeClassGroup(Obj(m[TagKey := Str(tag)][ContentKey := q]))
         == Ok(IgnoredVariant)
  {
  }

  // ---------------------------------------------------------------------------
  // The whole export

  /** Under the item-descriptor tag, the first descriptor that fails decides the group's error. */
  lemma DescriptorGroupFailsAtFirstBadDescriptor(m: map<string, Json>, items: seq<Json>, k: nat)
    requires TagKey in m && m[TagKey] == Str(ItemDescriptorTag)
    requires ContentKey in m && m[ContentKey] == Arr(items)
    requires k < |items| && DecodeItemDescriptor(items[k]).Err?
    requires forall i :: 0 <= i < k ==> DecodeItemDescriptor(items[i]).Ok?
    ensures DecodeClassGroup(Obj(m)) == Err(DecodeItemDescriptor(items[k]).error)
  {
    DecodeEachFailsAt(items, DecodeItemDescriptor, k);
  }

  /** Under the recipe tag, the first recipe that fails is the error of the whole group. */
  lemma RecipeGroupFailsAtFirstBadRecipe(m: map<string, Json>, items: seq<Json>, k: nat)
    requires TagKey in m && m[TagKey] == Str(RecipeTag)
    requires ContentKey in m && m[ContentKey] == Arr(items)
    requires k < |items| && DecodeRecipe(items[k]).Err?
    requires forall i :: 0 <= i < k ==> DecodeRecipe(items[i]).Ok?
    ensures DecodeClassGroup(Obj(m)) == Err(DecodeRecipe(items[k]).error)
  {
    DecodeEachFailsAt(items, DecodeRecipe, k);
  }

  /**
    Fail-fast: when the groups before position `k` decode and the one at `k`
    does not, the export fails with the error of the group at `k`, whatever
    follows it.
  */
  lemma ExportFailsAtFirstBadGroup(groups: seq<Json>, k: nat)
    requires k < |groups| && DecodeClassGroup(groups[k]).Err?
    requires forall i :: 0 <= i < k ==> DecodeClassGroup(groups[i]).Ok?
    ensures DecodeClassGroups(Arr(groups)) == Err(DecodeClassGroup(groups[k]).error)
  {
    DecodeEachFailsAt(groups, DecodeClassGroup, k);
  }

  /** When every group decodes, the export is exactly the list of decoded groups. */
  lemma ExportOfDecodedGroups(groups: seq<Json>, decoded: seq<ClassGroup>)
    requires |decoded| == |groups|
    requires forall i :: 0 <= i < |groups| ==> DecodeClassGroup(groups[i]) == Ok(decoded[i])
    ensures DecodeClassGroups(Arr(groups)) == Ok(decoded)
  {
    var r := DecodeClassGroups(Arr(groups));
    assert r.Ok?;
    assert r.value == decoded;
  }
}
