/**
  Worked examples: the three tests of src/raw/model.rs (their JSON fixture
  files are not part of this model, so each is replaced by an object of the
  shape the test reads) and concrete cases of the coercion and the dispatch.
*/
module Fixtures {
  import opened Wrappers
  import opened Json
  import opened Decoding
  import opened FloatLiteral
  import opened Model
  import ModelProperties

  const CircuitBoard := Obj(map[
    "ClassName" := Str("Desc_CircuitBoard_C"),
    "mDisplayName" := Str("Circuit Board"),
    "mStackSize" := Str("SS_LARGE")
  ])

  /** The duration of the steel beam recipe, as the export quotes it. */
  const SteelBeamDuration := "4"

  const SteelBeam := Obj(map[
    "ClassName" := Str("Recipe_SteelBeam_C"),
    "mDisplayName" := Str("Steel Beam"),
    "mIngredients" := Str("(Desc_SteelIngot_C,4)"),
    "mProduct" := Str("(Desc_SteelBeam_C,1)"),
    "mManufactoringDuration" := Str(SteelBeamDuration)
  ])

  const ConveyorTag := "Class'/Script/FactoryGame.FGBuildableConveyorBelt'"

  /** can_parse_item_descriptor */
  lemma ItemDescriptorFixture()
    ensures DecodeItemDescriptor(CircuitBoard) == Ok(ItemDescriptor("Desc_CircuitBoard_C", "Circuit Board"))
  {
  }

  /** "4" is the number 4. */
  lemma ParseFour()
    ensures ParseFloat(SteelBeamDuration) == Some(Finite(4.0))
  {
    assert SteelBeamDuration == "4";
    var lit := Literal(NoSign, "4", false, "", None);
    assert Render(lit) == "4";
    assert lit.intDigits + lit.fracDigits == "4";
    assert DigitsValue("4") == 4;
    assert LiteralValue(lit) == 4.0;
    ParseRendered(lit);
  }

  const SteelBeamRecipe := Recipe(
    "Recipe_SteelBeam_C",
    "Steel Beam",
    "(Desc_SteelIngot_C,4)",
    "(Desc_SteelBeam_C,1)",
    Finite(4.0))

  /** can_parse_recipe: the names as written, and the duration "4" is exactly 4. */
  lemma RecipeFixture()
    ensures DecodeRecipe(SteelBeam) == Ok(SteelBeamRecipe)
  {
    var m := SteelBeam.members;
    assert m["ClassName"] == Str("Recipe_SteelBeam_C");
    assert m["mDisplayName"] == Str("Steel Beam");
    assert m["mIngredients"] == Str("(Desc_SteelIngot_C,4)");
    assert m["mProduct"] == Str("(Desc_SteelBeam_C,1)");
    assert m["mManufactoringDuration"] == Str(SteelBeamDuration);
    ParseFour();
  }

  /** A group the model does not know, whose payload is not a list of records at all. */
  const ConveyorGroup := Obj(map[TagKey := Str(ConveyorTag), ContentKey := Num(3.0)])
  const DescriptorGroup := Obj(map[TagKey := Str(ItemDescriptorTag), ContentKey := Arr([CircuitBoard])])
  const RecipeGroup := Obj(map[TagKey := Str(RecipeTag), ContentKey := Arr([SteelBeam])])

  lemma ConveyorGroupIgnored()
    ensures DecodeClassGroup(ConveyorGroup) == Ok(IgnoredVariant)
  {
    assert ConveyorGroup.members[TagKey] == Str(ConveyorTag);
  }

  lemma DescriptorGroupDecodes()
    ensures DecodeClassGroup(DescriptorGroup) == Ok(ItemDescriptors([ItemDescriptor("Desc_CircuitBoard_C", "Circuit Board")]))
  {
    var m := DescriptorGroup.members;
    assert m[TagKey] == Str(ItemDescriptorTag);
    assert m[ContentKey] == Arr([CircuitBoard]);
    ItemDescriptorFixture();
    ModelProperties.DispatchItemDescriptors(m, [CircuitBoard]);
    var g := DecodeClassGroup(DescriptorGroup).value;
    assert g.descriptors == [ItemDescriptor("Desc_CircuitBoard_C", "Circuit Board")];
  }

  lemma RecipeGroupDecodes()
    ensures DecodeClassGroup(RecipeGroup) == Ok(Recipes([SteelBeamRecipe]))
  {
    var m := RecipeGroup.members;
    assert m[TagKey] == Str(RecipeTag);
    assert m[ContentKey] == Arr([SteelBeam]);
    RecipeFixture();
    SingleRecipeGroup(m, SteelBeam, SteelBeamRecipe);
  }

  /** A recipe group holding one record that decodes. */
  lemma SingleRecipeGroup(m: map<string, Json>, item: Json, recipe: Recipe)
    requires TagKey in m && m[TagKey] == Str(RecipeTag)
    requires ContentKey in m && m[ContentKey] == Arr([item])
    requires DecodeRecipe(item) == Ok(recipe)
    ensures DecodeClassGroup(Obj(m)) == Ok(Recipes([recipe]))
  {
    ModelProperties.DispatchRecipes(m, [item]);
    var g := DecodeClassGroup(Obj(m)).value;
    assert g.recipes == [recipe];
  }

  /** can_parse_class_group: three groups give three decoded groups, in order. */
  lemma ClassGroupsFixture()
    ensures DecodeClassGroups(Arr([ConveyorGroup, DescriptorGroup, RecipeGroup])) == Ok([
      IgnoredVariant,
      ItemDescriptors([ItemDescriptor("Desc_CircuitBoard_C", "Circuit Board")]),
      Recipes([SteelBeamRecipe])
    ])
  {
    var groups := [ConveyorGroup, DescriptorGroup, RecipeGroup];
    var decoded := [
      IgnoredVariant,
      ItemDescriptors([ItemDescriptor("Desc_CircuitBoard_C", "Circuit Board")]),
      Recipes([SteelBeamRecipe])
    ];
    forall i | 0 <= i < |groups| ensures DecodeClassGroup(groups[i]) == Ok(decoded[i]) {
      if i == 0 {
        ConveyorGroupIgnored();
      } else if i == 1 {
        DescriptorGroupDecodes();
      } else {
        RecipeGroupDecodes();
      }
    }
    ModelProperties.ExportOfDecodedGroups(groups, decoded);
  }

  // ---------------------------------------------------------------------------
  // The coercion on single strings

  lemma ParseNegativeHalf()
    ensures ParseStringedFloat(Str("-0.5")) == Ok(Finite(-0.5))
  {
    var lit := Literal(Minus, "0", true, "5", None);
    assert Render(lit) == "-0.5";
    assert lit.intDigits + lit.fracDigits == "05";
    assert DigitsValue("05") == 5 by {
      assert "05"[..1] == "0";
    }
    assert ExponentValue(lit.exponent) - |lit.fracDigits| == -1;
    assert Scale(5.0, -1) == 0.5;
    assert LiteralValue(lit) == -0.5;
    ParseRendered(lit);
  }

  lemma ParseExponent()
    ensures ParseStringedFloat(Str("2.5E+1")) == Ok(Finite(25.0))
  {
    var lit := Literal(NoSign, "2", true, "5", Some(Exponent('E', Plus, "1")));
    assert Render(lit) == "2.5E+1";
    assert lit.intDigits + lit.fracDigits == "25";
    assert DigitsValue("25") == 25 by {
      assert "25"[..1] == "2";
    }
    assert DigitsValue("1") == 1;
    assert LiteralValue(lit) == 25.0;
    ParseRendered(lit);
  }

  const Letters := "abc"

  /** Letters are not a number: the error carries the string. */
  lemma RejectLetters()
    ensures ParseStringedFloat(Str(Letters)) == Err(InvalidValue(Letters, AQuotedFloat))
  {
    assert Letters == "abc";
    assert LowerAsciiText(Letters) == "abc";
    ScannedStart(Letters);
  }

  const TwoPoints := "4.0.0"

  /** A second point is not a number either. */
  lemma RejectTwoPoints()
    ensures ParseStringedFloat(Str(TwoPoints)) == Err(InvalidValue(TwoPoints, AQuotedFloat))
  {
    assert TwoPoints == "4.0.0";
    assert LowerAsciiText(TwoPoints)[0] == '4';
    ScannedPointIsUnique(TwoPoints, 1, 3);
  }

  /** The empty string is not a number. */
  lemma RejectEmpty()
    ensures ParseStringedFloat(Str("")) == Err(InvalidValue("", AQuotedFloat))
  {
  }

  /** An exponent needs digits. */
  lemma RejectBareExponent()
    ensures ParseStringedFloat(Str("1e")) == Err(InvalidValue("1e", AQuotedFloat))
  {
    assert LowerAsciiText("1e")[0] == '1';
    IndexOfAnyIs("1e", {'e', 'E'}, 1);
    assert "1e"[2..] == "";
  }

  /** The special spellings are accepted in any letter case. */
  lemma AcceptSpecialSpellings()
    ensures ParseStringedFloat(Str("InFinity")) == Ok(Infinite(false))
    ensures ParseStringedFloat(Str("-inf")) == Ok(Infinite(true))
    ensures ParseStringedFloat(Str("NaN")) == Ok(NaN)
  {
    assert LowerAsciiText("InFinity") == "infinity";
    assert "-inf"[1..] == "inf";
    assert LowerAsciiText("inf") == "inf";
    assert LowerAsciiText("NaN") == "nan";
  }

  /** A native JSON number is not accepted where a quoted number is expected. */
  lemma RejectNativeNumber()
    ensures ParseStringedFloat(Num(4.0)) == Err(InvalidType(NumberKind, AQuotedFloat))
  {
  }

  // ---------------------------------------------------------------------------
  // Dispatch and fail-fast

  /** The tag is matched exactly: the recipe tag in lower case is just another unknown tag. */
  lemma TagIsCaseSensitive()
    ensures DecodeClassGroup(Obj(map[
      TagKey := Str("class'/script/factorygame.fgrecipe'"),
      ContentKey := Arr([SteelBeam])
    ])) == Ok(IgnoredVariant)
  {
    var m := map[TagKey := Str("class'/script/factorygame.fgrecipe'"), ContentKey := Arr([SteelBeam])];
    assert m[TagKey] == Str("class'/script/factorygame.fgrecipe'");
    assert "class'/script/factorygame.fgrecipe'"[0] != RecipeTag[0];
    assert "class'/script/factorygame.fgrecipe'"[0] != ItemDescriptorTag[0];
  }

  /** A recipe without its product. */
  const NoProduct := map[
    "ClassName" := Str("Recipe_SteelBeam_C"),
    "mDisplayName" := Str("Steel Beam"),
    "mIngredients" := Str("(Desc_SteelIngot_C,4)"),
    "mManufactoringDuration" := Str(SteelBeamDuration)
  ]

  const BrokenRecipeGroup := Obj(map[TagKey := Str(RecipeTag), ContentKey := Arr([Obj(NoProduct)])])

  lemma NoProductLookups()
    ensures NoProduct["ClassName"] == Str("Recipe_SteelBeam_C")
    ensures NoProduct["mDisplayName"] == Str("Steel Beam")
    ensures NoProduct["mIngredients"] == Str("(Desc_SteelIngot_C,4)")
    ensures NoProduct["mManufactoringDuration"] == Str(SteelBeamDuration)
    ensures "mProduct" !in NoProduct
  {
  }

  lemma NoProductDuration()
    ensures IsGoodField(NoProduct, ("mManufactoringDuration", QuotedFloat))
  {
    NoProductLookups();
    ParseFour();
  }

  lemma NoProductGoodFields()
    ensures "mProduct" !in NoProduct
    ensures forall i :: 0 <= i < |RecipeSchema| && i != 3 ==> IsGoodField(NoProduct, RecipeSchema[i])
  {
    NoProductLookups();
    NoProductDuration();
    var m := NoProduct;
    forall i | 0 <= i < |RecipeSchema| && i != 3 ensures IsGoodField(m, RecipeSchema[i]) {
      if i == 0 {
        assert RecipeSchema[i] == ("ClassName", Text);
      } else if i == 1 {
        assert RecipeSchema[i] == ("mDisplayName", Text);
      } else if i == 2 {
        assert RecipeSchema[i] == ("mIngredients", Text);
      } else {
        assert RecipeSchema[i] == ("mManufactoringDuration", QuotedFloat);
      }
    }
  }

  lemma NoProductFails()
    ensures DecodeRecipe(Obj(NoProduct)) == Err(MissingField("mProduct"))
  {
    NoProductGoodFields();
    ModelProperties.RecipeReportsMissingField(NoProduct, 3);
  }

  lemma BrokenRecipeGroupFails()
    ensures DecodeClassGroup(BrokenRecipeGroup) == Err(MissingField("mProduct"))
  {
    NoProductFails();
    var m := BrokenRecipeGroup.members;
    assert m[TagKey] == Str(RecipeTag);
    assert m[ContentKey] == Arr([Obj(NoProduct)]);
    ModelProperties.RecipeGroupFailsAtFirstBadRecipe(m, [Obj(NoProduct)], 0);
  }

  /**
    Three groups, the second broken and the third not even an object: the
    export fails with the second group's error.
  */
  lemma ExportFailsFast()
    ensures DecodeClassGroups(Arr([ConveyorGroup, BrokenRecipeGroup, Null])) == Err(MissingField("mProduct"))
  {
    ConveyorGroupIgnored();
    BrokenRecipeGroupFails();
    SecondGroupFails(ConveyorGroup, BrokenRecipeGroup, Null, MissingField("mProduct"));
  }

  /** Three groups whose first decodes and whose second fails. */
  lemma SecondGroupFails(first: Json, second: Json, third: Json, e: DecodeError)
    requires DecodeClassGroup(first).Ok? && DecodeClassGroup(second) == Err(e)
    ensures DecodeClassGroups(Arr([first, second, third])) == Err(e)
  {
    ModelProperties.ExportFailsAtFirstBadGroup([first, second, third], 1);
  }
}
