/** `parse_recipe_from_json`: one JSON-LD record becomes the output recipe.  The
    field-type check that precedes the extraction never rejects a record (both of its
    branches continue), so a record is extracted when, and only when, every access the
    extraction makes succeeds; any failing access raises. */
module Recipes {
  import opened Py
  import opened Text
  import opened Numbers
  import opened JsonValue
  import opened Ingredients

  /** `os.linesep`, fixed to the POSIX line separator. */
  const LineSep: string := "\n"

  /** `energy_value_per_serving`: the four nutrition values, whatever JSON they are. */
  datatype Energy = Energy(calories: Json, protein: Json, fat: Json, carbohydrates: Json)

  /** The output recipe.  `name` is whatever the record's "name" holds. */
  datatype Recipe = Recipe(
    name: Json,
    servesAmount: int,
    ingredients: seq<Ingredient>,
    text: string,
    energy: Energy)

  /** `int(y.split()[0])`: the first whitespace token of the yield, read as an integer. */
  function ServesAmount(y: Json): (r: Result<int>)
    ensures r.Ok? <==> y.Str? && |Split(y.s)| > 0 && ParseInt(Split(y.s)[0]).Ok?
    ensures r.Ok? ==> ParseInt(Split(y.s)[0]) == Ok(r.value)
    ensures !y.Str? ==> r == Raised(AttributeError)
    ensures y.Str? && |Split(y.s)| == 0 ==> r == Raised(IndexError)
    ensures y.Str? && |Split(y.s)| > 0 ==> r == ParseInt(Split(y.s)[0])
    ensures y.Str? && |Split(y.s)| > 0 && ParseInt(Split(y.s)[0]).Raised? ==> r == Raised(ValueError)
  {
    if !y.Str? then Raised(AttributeError)
    else
      var ts := Split(y.s);
      if |ts| == 0 then Raised(IndexError) else ParseInt(ts[0])
  }

  /** The formatted step lines `"{i}. {step.rstrip()}"`, numbered from `start`. */
  function NumberedSteps(steps: seq<Json>, start: nat): (r: Result<seq<string>>)
    ensures r.Ok? <==> forall i :: 0 <= i < |steps| ==> steps[i].Str?
    ensures r.Raised? ==> r.exc == AttributeError
    ensures r.Ok? ==> |r.value| == |steps|
    ensures r.Ok? ==> forall i :: 0 <= i < |steps| ==>
              r.value[i] == DecimalString(start + i) + ". " + RStrip(steps[i].s)
  {
    if |steps| == 0 then Ok([])
    else if !steps[0].Str? then Raised(AttributeError)
    else
      var rest :- NumberedSteps(steps[1..], start + 1);
      Ok([DecimalString(start) + ". " + RStrip(steps[0].s)] + rest)
  }

  /** `split_ingredient(x)` on one iterated item: only a str has `split`; a list or dict
      fails at `.split` with `AttributeError`, a scalar already at `in` with `TypeError`. */
  function IngredientOf(j: Json): (r: Result<Ingredient>)
    ensures j.Str? ==> r == SplitIngredient(j.s)
    ensures (j.Arr? || j.Obj?) ==> r == Raised(AttributeError)
    ensures (j.Null? || j.Bool? || j.Num?) ==> r == Raised(TypeError)
  {
    match j
    case Str(s) => SplitIngredient(s)
    case Arr(_) => Raised(AttributeError)
    case Obj(_) => Raised(AttributeError)
    case _ => Raised(TypeError)
  }

  /** `[split_ingredient(x) for x in items]`: same length and order; the first failing
      item's exception propagates. */
  function ParseIngredients(items: seq<Json>): (r: Result<seq<Ingredient>>)
    ensures r.Ok? <==> forall i :: 0 <= i < |items| ==> IngredientOf(items[i]).Ok?
    ensures r.Ok? ==> |r.value| == |items|
    ensures r.Ok? ==> forall i :: 0 <= i < |items| ==> IngredientOf(items[i]) == Ok(r.value[i])
  {
    if |items| == 0 then Ok([])
    else
      var first :- IngredientOf(items[0]);
      var rest :- ParseIngredients(items[1..]);
      assert forall i :: 1 <= i < |items| ==> items[i] == items[1..][i - 1];
      Ok([first] + rest)
  }

  /** A failing list comprehension raises the exception of its first failing item. */
  lemma {:induction false} IngredientsRaiseAtFirstFailure(items: seq<Json>)
    requires ParseIngredients(items).Raised?
    ensures exists i :: && 0 <= i < |items|
                        && IngredientOf(items[i]) == Raised(ParseIngredients(items).exc)
                        && forall j :: 0 <= j < i ==> IngredientOf(items[j]).Ok?
  {
    var e := ParseIngredients(items).exc;
    var head := IngredientOf(items[0]);
    if head.Raised? {
      assert head == Raised(e);
    } else {
      var tail := items[1..];
      assert ParseIngredients(tail) == Raised(e);
      IngredientsRaiseAtFirstFailure(tail);
      var i :| && 0 <= i < |tail|
                && IngredientOf(tail[i]) == Raised(e)
                && forall j :: 0 <= j < i ==> IngredientOf(tail[j]).Ok?;
      assert tail[i] == items[i + 1];
      assert forall j :: 1 <= j < i + 1 ==> items[j] == tail[j - 1];
      assert IngredientOf(items[i + 1]) == Raised(e);
    }
  }

  /** The four `element["nutrition"][...]` lookups, in source order. */
  function EnergyOf(nutrition: Json): (r: Result<Energy>)
    ensures r.Ok? <==> nutrition.Obj? && Get(nutrition.fields, "calories").Some?
                       && Get(nutrition.fields, "proteinContent").Some?
                       && Get(nutrition.fields, "fatContent").Some?
                       && Get(nutrition.fields, "carbohydrateContent").Some?
    ensures r.Ok? ==> && Get(nutrition.fields, "calories") == Some(r.value.calories)
                      && Get(nutrition.fields, "proteinContent") == Some(r.value.protein)
                      && Get(nutrition.fields, "fatContent") == Some(r.value.fat)
                      && Get(nutrition.fields, "carbohydrateContent") == Some(r.value.carbohydrates)
    ensures !nutrition.Obj? ==> r == Raised(TypeError)
  {
    var calories :- Index(nutrition, "calories");
    var protein :- Index(nutrition, "proteinContent");
    var fat :- Index(nutrition, "fatContent");
    var carbohydrates :- Index(nutrition, "carbohydrateContent");
    Ok(Energy(calories, protein, fat, carbohydrates))
  }

  /** `int(element["recipeYield"].split()[0])`. */
  function YieldOf(e: Json): (r: Result<int>)
    requires e.Obj?
    ensures r.Ok? <==> Get(e.fields, "recipeYield").Some? && ServesAmount(Get(e.fields, "recipeYield").value).Ok?
    ensures r.Ok? ==> ServesAmount(Get(e.fields, "recipeYield").value) == r
  {
    var y :- Index(e, "recipeYield");
    ServesAmount(y)
  }

  /** `os.linesep.join` of the numbered lines of `element["recipeInstructions"]`. */
  function TextOf(e: Json): (r: Result<string>)
    requires e.Obj?
    ensures r.Ok? <==> && Get(e.fields, "recipeInstructions").Some?
                       && Iterate(Get(e.fields, "recipeInstructions").value).Ok?
                       && NumberedSteps(Iterate(Get(e.fields, "recipeInstructions").value).value, 1).Ok?
    ensures r.Ok? ==>
              r.value == Join(LineSep, NumberedSteps(Iterate(Get(e.fields, "recipeInstructions").value).value, 1).value)
  {
    var instructions :- Index(e, "recipeInstructions");
    var steps :- Iterate(instructions);
    var lines :- NumberedSteps(steps, 1);
    Ok(Join(LineSep, lines))
  }

  /** `[split_ingredient(x) for x in element["recipeIngredient"]]`. */
  function IngredientsOf(e: Json): (r: Result<seq<Ingredient>>)
    requires e.Obj?
    ensures r.Ok? <==> && Get(e.fields, "recipeIngredient").Some?
                       && Iterate(Get(e.fields, "recipeIngredient").value).Ok?
                       && ParseIngredients(Iterate(Get(e.fields, "recipeIngredient").value).value).Ok?
    ensures r.Ok? ==> r == ParseIngredients(Iterate(Get(e.fields, "recipeIngredient").value).value)
  {
    var lines :- Index(e, "recipeIngredient");
    var items :- Iterate(lines);
    ParseIngredients(items)
  }

  /** The four `element["nutrition"][...]` values. */
  function NutritionOf(e: Json): (r: Result<Energy>)
    requires e.Obj?
    ensures r.Ok? <==> Get(e.fields, "nutrition").Some? && EnergyOf(Get(e.fields, "nutrition").value).Ok?
    ensures r.Ok? ==> r == EnergyOf(Get(e.fields, "nutrition").value)
  {
    var nutrition :- Index(e, "nutrition");
    EnergyOf(nutrition)
  }

  /** The recipe from the results of its five reads, or the exception of the first read
      that failed, in the order name, yield, instructions, ingredients, nutrition. */
  function Assemble(name: Result<Json>, serves: Result<int>, text: Result<string>,
                    ingredients: Result<seq<Ingredient>>, energy: Result<Energy>): (r: Result<Recipe>)
    ensures r.Ok? <==> name.Ok? && serves.Ok? && text.Ok? && ingredients.Ok? && energy.Ok?
    ensures r.Ok? ==> r.value == Recipe(name.value, serves.value, ingredients.value, text.value, energy.value)
    ensures r.Raised? ==> || (name.Raised? && r.exc == name.exc)
                          || (name.Ok? && serves.Raised? && r.exc == serves.exc)
                          || (name.Ok? && serves.Ok? && text.Raised? && r.exc == text.exc)
                          || (name.Ok? && serves.Ok? && text.Ok? && ingredients.Raised? && r.exc == ingredients.exc)
                          || (name.Ok? && serves.Ok? && text.Ok? && ingredients.Ok? && energy.Raised? && r.exc == energy.exc)
  {
    var n :- name;
    var s :- serves;
    var t :- text;
    var i :- ingredients;
    var e :- energy;
    Ok(Recipe(n, s, i, t, e))
  }

  /** `parse_recipe_from_json(element)`: `None` for a non-dict, otherwise the recipe or
      the exception of the first access that fails.  The reads are side-effect free, so
      reading all five and keeping the first failure is the same as stopping at it. */
  function ParseRecipe(element: Json): (r: Result<Option<Recipe>>)
    ensures !element.Obj? ==> r == Ok(None)
    ensures element.Obj? ==> r != Ok(None)
  {
    if !element.Obj? then Ok(None)
    else
      var recipe :- Assemble(Index(element, "name"), YieldOf(element), TextOf(element),
                             IngredientsOf(element), NutritionOf(element));
      Ok(Some(recipe))
  }

  /** The record shape under which every access of the extraction succeeds.  Nothing
      is asked of "name" but its presence: the type check on it rejects nothing. */
  predicate Extractable(e: Json) {
    && e.Obj?
    && Get(e.fields, "name").Some?
    && Get(e.fields, "recipeYield").Some?
    && ServesAmount(Get(e.fields, "recipeYield").value).Ok?
    && Get(e.fields, "recipeInstructions").Some?
    && Iterate(Get(e.fields, "recipeInstructions").value).Ok?
    && (forall s :: s in Iterate(Get(e.fields, "recipeInstructions").value).value ==> s.Str?)
    && Get(e.fields, "recipeIngredient").Some?
    && Iterate(Get(e.fields, "recipeIngredient").value).Ok?
    && (forall x :: x in Iterate(Get(e.fields, "recipeIngredient").value).value ==> IngredientOf(x).Ok?)
    && Get(e.fields, "nutrition").Some?
    && EnergyOf(Get(e.fields, "nutrition").value).Ok?
  }

  /** A dict record is extracted exactly when it has the extractable shape; otherwise
      the extraction raises (it never answers `None` for a dict). */
  lemma ExtractedIffExtractable(e: Json)
    requires e.Obj?
    ensures ParseRecipe(e).Ok? <==> Extractable(e)
    ensures ParseRecipe(e).Ok? ==> ParseRecipe(e).value.Some?
  {
    var iSteps := Get(e.fields, "recipeInstructions");
    if iSteps.Some? && Iterate(iSteps.value).Ok? {
      var steps := Iterate(iSteps.value).value;
      assert (forall i :: 0 <= i < |steps| ==> steps[i].Str?) <==> (forall s :: s in steps ==> s.Str?);
    }
    var iIngr := Get(e.fields, "recipeIngredient");
    if iIngr.Some? && Iterate(iIngr.value).Ok? {
      var items := Iterate(iIngr.value).value;
      assert (forall i :: 0 <= i < |items| ==> IngredientOf(items[i]).Ok?)
         <==> (forall x :: x in items ==> IngredientOf(x).Ok?);
    }
  }

  /** An extracted recipe holds the record's name verbatim and the integer of the
      yield's first token. */
  lemma ExtractedNameAndServes(e: Json)
    requires ParseRecipe(e).Ok? && ParseRecipe(e).value.Some?
    ensures e.Obj?
    ensures Get(e.fields, "name") == Some(ParseRecipe(e).value.value.name)
    ensures var y := Get(e.fields, "recipeYield").value;
            y.Str? && |Split(y.s)| > 0 && ParseInt(Split(y.s)[0]) == Ok(ParseRecipe(e).value.value.servesAmount)
  {
    var r := ParseRecipe(e).value.value;
    assert YieldOf(e) == Ok(r.servesAmount);
    assert Index(e, "name") == Ok(r.name);
  }

  /** The text of an extracted recipe has one line per instruction, the i-th being
      "i. " and the right-trimmed step, numbered from 1 and joined by the line separator. */
  lemma ExtractedText(e: Json)
    requires ParseRecipe(e).Ok? && ParseRecipe(e).value.Some?
    ensures e.Obj?
    ensures var steps := Iterate(Get(e.fields, "recipeInstructions").value).value;
            exists lines: seq<string> ::
              && |lines| == |steps|
              && (forall i :: 0 <= i < |steps| ==>
                    steps[i].Str? && lines[i] == DecimalString(i + 1) + ". " + RStrip(steps[i].s))
              && ParseRecipe(e).value.value.text == Join(LineSep, lines)
  {
    ParsedParts(e);
    TextLines(e);
  }

  /** A successful extraction holds the values of the five reads. */
  lemma ParsedParts(e: Json)
    requires ParseRecipe(e).Ok? && ParseRecipe(e).value.Some?
    ensures e.Obj?
    ensures TextOf(e).Ok? && ParseRecipe(e).value.value.text == TextOf(e).value
    ensures IngredientsOf(e).Ok? && ParseRecipe(e).value.value.ingredients == IngredientsOf(e).value
  {
    var a := Assemble(Index(e, "name"), YieldOf(e), TextOf(e), IngredientsOf(e), NutritionOf(e));
    assert ParseRecipe(e) == Ok(Some(a.value));
  }

  lemma TextLines(e: Json)
    requires e.Obj? && TextOf(e).Ok?
    ensures var steps := Iterate(Get(e.fields, "recipeInstructions").value).value;
            exists lines: seq<string> ::
              && |lines| == |steps|
              && (forall i :: 0 <= i < |steps| ==>
                    steps[i].Str? && lines[i] == DecimalString(i + 1) + ". " + RStrip(steps[i].s))
              && TextOf(e).value == Join(LineSep, lines)
  {
    var steps := Iterate(Get(e.fields, "recipeInstructions").value).value;
    var lines := NumberedSteps(steps, 1).value;
    assert TextOf(e).value == Join(LineSep, lines);
  }

  /** The ingredients of an extracted recipe are `split_ingredient` of each ingredient
      line, same length, same order. */
  lemma ExtractedIngredients(e: Json)
    requires ParseRecipe(e).Ok? && ParseRecipe(e).value.Some?
    ensures e.Obj?
    ensures var items := Iterate(Get(e.fields, "recipeIngredient").value).value;
            var ingredients := ParseRecipe(e).value.value.ingredients;
            && |ingredients| == |items|
            && forall i :: 0 <= i < |items| ==>
                 items[i].Str? && SplitIngredient(items[i].s) == Ok(ingredients[i])
  {
    var items := Iterate(Get(e.fields, "recipeIngredient").value).value;
    assert ParseRecipe(e).value.value.ingredients == ParseIngredients(items).value;
    forall i | 0 <= i < |items|
      ensures items[i].Str?
    {
      assert IngredientOf(items[i]).Ok?;
    }
  }

  /** The energy values of an extracted recipe are the nutrition block's calories,
      proteinContent, fatContent and carbohydrateContent, verbatim. */
  lemma ExtractedEnergy(e: Json)
    requires ParseRecipe(e).Ok? && ParseRecipe(e).value.Some?
    ensures e.Obj?
    ensures var n := Get(e.fields, "nutrition").value;
            var en := ParseRecipe(e).value.value.energy;
            && n.Obj?
            && Get(n.fields, "calories") == Some(en.calories)
            && Get(n.fields, "proteinContent") == Some(en.protein)
            && Get(n.fields, "fatContent") == Some(en.fat)
            && Get(n.fields, "carbohydrateContent") == Some(en.carbohydrates)
  {
  }

  /** A recipe record without "name" raises `KeyError`, whatever else it holds: the type
      check does not turn it into `None`. */
  lemma MissingNameRaises(e: Json)
    requires e.Obj? && Get(e.fields, "name").None?
    ensures ParseRecipe(e) == Raised(KeyError("name"))
  {
  }

  /** A yield such as "4 порции" gives its leading number. */
  lemma YieldLeadingNumber(n: nat, rest: string)
    ensures ServesAmount(Str(DecimalString(n) + " " + rest)) == Ok(n)
  {
    var ds := DecimalString(n);
    assert IsWord(ds) by {
      forall i | 0 <= i < |ds| ensures !IsSpace(ds[i]) {
        assert IsDigit(ds[i]);
      }
    }
    assert ds + " " + rest == ds + (" " + rest);
    SplitWordThen(ds, " " + rest);
    IntOfDecimalString(n);
  }

  /** The dict a parsed ingredient becomes in the output: `{name: {unit: amount}}`. */
  function IngredientJson(i: Ingredient): (j: Json)
    ensures j.Obj? && |j.fields| == 1 && j.fields[0].0 == i.name
    ensures j.fields[0].1 == Obj([(i.unit, Num(i.amount))])
  {
    Obj([(i.name, Obj([(i.unit, Num(i.amount))]))])
  }

  /** The output list of ingredient dicts, one per ingredient, in order. */
  function IngredientsJson(ingredients: seq<Ingredient>): (js: seq<Json>)
    ensures |js| == |ingredients|
    ensures forall i :: 0 <= i < |ingredients| ==> js[i] == IngredientJson(ingredients[i])
  {
    if |ingredients| == 0 then [] else [IngredientJson(ingredients[0])] + IngredientsJson(ingredients[1..])
  }

  /** The output dict of the energy values, renamed to the output layout's keys:
      calories, protein, fat, carbohydrates. */
  function EnergyJson(en: Energy): (j: Json)
    ensures j.Obj? && |j.fields| == 4
    ensures Get(j.fields, "calories") == Some(en.calories)
    ensures Get(j.fields, "protein") == Some(en.protein)
    ensures Get(j.fields, "fat") == Some(en.fat)
    ensures Get(j.fields, "carbohydrates") == Some(en.carbohydrates)
  {
    var fields := [("calories", en.calories), ("protein", en.protein), ("fat", en.fat),
                   ("carbohydrates", en.carbohydrates)];
    GetAt(fields, 0); GetAt(fields, 1); GetAt(fields, 2); GetAt(fields, 3);
    Obj(fields)
  }

  /** The output dict of a recipe.  It has exactly the five keys of the output layout,
      and every one of them holds the extracted value (none keeps the blank default). */
  function RecipeJson(r: Recipe): (j: Json)
    ensures j.Obj? && |j.fields| == 5
    ensures Get(j.fields, "name") == Some(r.name)
    ensures Get(j.fields, "serves_amount") == Some(Num(r.servesAmount as real))
    ensures Get(j.fields, "ingredients") == Some(Arr(IngredientsJson(r.ingredients)))
    ensures Get(j.fields, "text") == Some(Str(r.text))
    ensures Get(j.fields, "energy_value_per_serving") == Some(EnergyJson(r.energy))
  {
    var name, serves := r.name, Num(r.servesAmount as real);
    var ingredients, text := Arr(IngredientsJson(r.ingredients)), Str(r.text);
    var energy := EnergyJson(r.energy);
    RecipeKeys(name, serves, ingredients, text, energy);
    Obj(RecipeFields(name, serves, ingredients, text, energy))
  }

  /** The five entries of the output dict, in the order the source builds it. */
  function RecipeFields(name: Json, serves: Json, ingredients: Json, text: Json, energy: Json): seq<(string, Json)>
  {
    [("name", name), ("serves_amount", serves), ("ingredients", ingredients),
     ("text", text), ("energy_value_per_serving", energy)]
  }

  /** Each of the five keys finds its own value: the keys are distinct. */
  lemma RecipeKeys(name: Json, serves: Json, ingredients: Json, text: Json, energy: Json)
    ensures var fields := RecipeFields(name, serves, ingredients, text, energy);
            && |fields| == 5
            && Get(fields, "name") == Some(name)
            && Get(fields, "serves_amount") == Some(serves)
            && Get(fields, "ingredients") == Some(ingredients)
            && Get(fields, "text") == Some(text)
            && Get(fields, "energy_value_per_serving") == Some(energy)
  {
    var fields := RecipeFields(name, serves, ingredients, text, energy);
    assert fields[3].0[0] != fields[0].0[0];
    GetAt(fields, 0); GetAt(fields, 1); GetAt(fields, 2); GetAt(fields, 3); GetAt(fields, 4);
  }
}
