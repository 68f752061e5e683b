/**
 * The recipe serializer (backend/foodgram/serializers.py): validation of a
 * recipe payload, writing a recipe with its tag set and ingredient lines,
 * and the read-side projections (ingredient lines, favorite / cart flags,
 * the subscription preview of an author's recipes).
 */
module Serializers {
  import opened Wrappers
  import opened Text
  import opened Models

  /** One element of the payload's `ingredients` list: `{"id": .., "amount": ..}`. */
  datatype IngredientItem = IngredientItem(id: int, amount: int)

  /**
   * A recipe request body after field parsing. A missing scalar field is
   * `None`; a missing `ingredients` or `tags` list is the empty list, which
   * the validators treat exactly like an explicit empty list.
   */
  datatype RecipePayload = RecipePayload(
    name: Option<string>,
    text: Option<string>,
    image: Option<ImageRef>,
    cookingTime: Option<int>,
    ingredients: seq<IngredientItem>,
    tags: seq<int>)

  function ItemIds(items: seq<IngredientItem>): seq<int> {
    seq(|items|, k requires 0 <= k < |items| => items[k].id)
  }

  function SetOf(ids: seq<int>): set<int> {
    set x | x in ids
  }

  // ---------------------------------------------------------------------
  // validate_ingredients
  // ---------------------------------------------------------------------

  /**
   * What the check of item `k` raises once every earlier item has passed:
   * an unknown id first, then an id seen earlier in the list, then an
   * amount that is not positive.
   */
  function IngredientItemError(items: seq<IngredientItem>, known: set<int>, k: int): Option<ApiError>
    requires 0 <= k < |items|
  {
    var item := items[k];
    if item.id !in known then Some(Invalid(IngredientsField, UnknownId(item.id)))
    else if item.id in ItemIds(items[..k]) then Some(Invalid(IngredientsField, Repeated))
    else if item.amount <= 0 then Some(Invalid(AmountField, NotPositive))
    else None
  }

  predicate IngredientsAccepted(items: seq<IngredientItem>, known: set<int>) {
    |items| > 0 && forall k :: 0 <= k < |items| ==> IngredientItemError(items, known, k) == None
  }

  /** `e` is the error of the first offending item (or the empty-list error). */
  predicate FirstIngredientError(items: seq<IngredientItem>, known: set<int>, e: ApiError) {
    if |items| == 0 then e == Invalid(IngredientsField, Required)
    else exists k :: 0 <= k < |items| && IngredientItemError(items, known, k) == Some(e)
                     && forall j :: 0 <= j < k ==> IngredientItemError(items, known, j) == None
  }

  /** The plain reading of a good ingredient list: known ids, positive amounts, no id twice. */
  predicate WellFormedItems(items: seq<IngredientItem>, known: set<int>) {
    (forall k :: 0 <= k < |items| ==> items[k].id in known && items[k].amount > 0)
    && forall i, j :: 0 <= i < j < |items| ==> items[i].id != items[j].id
  }

  method ValidateIngredients(items: seq<IngredientItem>, known: set<int>) returns (r: Outcome<ApiError>)
    ensures r.Pass? <==> IngredientsAccepted(items, known)
    ensures r.Fail? ==> FirstIngredientError(items, known, r.error)
  {
    if |items| == 0 {
      return Fail(Invalid(IngredientsField, Required));
    }
    var seen: seq<int> := [];
    var i := 0;
    while i < |items|
      invariant 0 <= i <= |items|
      invariant seen == ItemIds(items[..i])
      invariant forall k :: 0 <= k < i ==> IngredientItemError(items, known, k) == None
    {
      var item := items[i];
      if item.id !in known {
        r := Fail(Invalid(IngredientsField, UnknownId(item.id)));
        assert IngredientItemError(items, known, i) == Some(r.error);
        return;
      }
      if item.id in seen {
        r := Fail(Invalid(IngredientsField, Repeated));
        assert IngredientItemError(items, known, i) == Some(r.error);
        return;
      }
      if item.amount <= 0 {
        r := Fail(Invalid(AmountField, NotPositive));
        assert IngredientItemError(items, known, i) == Some(r.error);
        return;
      }
      assert IngredientItemError(items, known, i) == None;
      assert ItemIds(items[..i + 1]) == ItemIds(items[..i]) + [item.id];
      seen := seen + [item.id];
      i := i + 1;
    }
    r := Pass;
  }

  /** A list passes validation exactly when it is non-empty and well formed. */
  lemma IngredientsAcceptedIff(items: seq<IngredientItem>, known: set<int>)
    ensures IngredientsAccepted(items, known) <==> |items| > 0 && WellFormedItems(items, known)
  {
    if IngredientsAccepted(items, known) {
      forall k | 0 <= k < |items| ensures items[k].id in known && items[k].amount > 0 {
        assert IngredientItemError(items, known, k) == None;
      }
      forall i, j | 0 <= i < j < |items| ensures items[i].id != items[j].id {
        assert IngredientItemError(items, known, j) == None;
        assert ItemIds(items[..j])[i] == items[i].id;
      }
    }
    if |items| > 0 && WellFormedItems(items, known) {
      forall k | 0 <= k < |items| ensures IngredientItemError(items, known, k) == None {
        var ids := ItemIds(items[..k]);
        forall m | 0 <= m < |ids| ensures ids[m] != items[k].id {
          assert ids[m] == items[m].id;
        }
        assert items[k].id !in ids;
      }
    }
  }

  /** Validation reports one error per list: the first offending item decides it. */
  lemma FirstIngredientErrorUnique(items: seq<IngredientItem>, known: set<int>, e1: ApiError, e2: ApiError)
    requires FirstIngredientError(items, known, e1) && FirstIngredientError(items, known, e2)
    ensures e1 == e2
  {
    if |items| > 0 {
      var k1 :| 0 <= k1 < |items| && IngredientItemError(items, known, k1) == Some(e1)
                && forall j :: 0 <= j < k1 ==> IngredientItemError(items, known, j) == None;
      var k2 :| 0 <= k2 < |items| && IngredientItemError(items, known, k2) == Some(e2)
                && forall j :: 0 <= j < k2 ==> IngredientItemError(items, known, j) == None;
      assert IngredientItemError(items, known, k1).Some? && IngredientItemError(items, known, k2).Some?;
      assert k1 == k2;
    }
  }

  // ---------------------------------------------------------------------
  // validate_tags
  // ---------------------------------------------------------------------

  function TagError(tags: seq<int>, known: set<int>, k: int): Option<ApiError>
    requires 0 <= k < |tags|
  {
    if tags[k] !in known then Some(Invalid(TagsField, UnknownId(tags[k])))
    else if tags[k] in tags[..k] then Some(Invalid(TagsField, Repeated))
    else None
  }

  predicate TagsAccepted(tags: seq<int>, known: set<int>) {
    |tags| > 0 && forall k :: 0 <= k < |tags| ==> TagError(tags, known, k) == None
  }

  predicate FirstTagError(tags: seq<int>, known: set<int>, e: ApiError) {
    if |tags| == 0 then e == Invalid(TagsField, Required)
    else exists k :: 0 <= k < |tags| && TagError(tags, known, k) == Some(e)
                     && forall j :: 0 <= j < k ==> TagError(tags, known, j) == None
  }

  predicate WellFormedTags(tags: seq<int>, known: set<int>) {
    (forall k :: 0 <= k < |tags| ==> tags[k] in known)
    && forall i, j :: 0 <= i < j < |tags| ==> tags[i] != tags[j]
  }

  method ValidateTags(tags: seq<int>, known: set<int>) returns (r: Outcome<ApiError>)
    ensures r.Pass? <==> TagsAccepted(tags, known)
    ensures r.Fail? ==> FirstTagError(tags, known, r.error)
  {
    if |tags| == 0 {
      return Fail(Invalid(TagsField, Required));
    }
    var seen: seq<int> := [];
    var i := 0;
    while i < |tags|
      invariant 0 <= i <= |tags|
      invariant seen == tags[..i]
      invariant forall k :: 0 <= k < i ==> TagError(tags, known, k) == None
    {
      var tag := tags[i];
      if tag !in known {
        r := Fail(Invalid(TagsField, UnknownId(tag)));
        assert TagError(tags, known, i) == Some(r.error);
        return;
      }
      if tag in seen {
        r := Fail(Invalid(TagsField, Repeated));
        assert TagError(tags, known, i) == Some(r.error);
        return;
      }
      assert TagError(tags, known, i) == None;
      assert tags[..i + 1] == tags[..i] + [tag];
      seen := seen + [tag];
      i := i + 1;
    }
    r := Pass;
  }

  lemma TagsAcceptedIff(tags: seq<int>, known: set<int>)
    ensures TagsAccepted(tags, known) <==> |tags| > 0 && WellFormedTags(tags, known)
  {
    if TagsAccepted(tags, known) {
      forall k | 0 <= k < |tags| ensures tags[k] in known {
        assert TagError(tags, known, k) == None;
      }
      forall i, j | 0 <= i < j < |tags| ensures tags[i] != tags[j] {
        assert TagError(tags, known, j) == None;
        assert tags[..j][i] == tags[i];
      }
    }
    if |tags| > 0 && WellFormedTags(tags, known) {
      forall k | 0 <= k < |tags| ensures TagError(tags, known, k) == None {
        var before := tags[..k];
        forall m | 0 <= m < |before| ensures before[m] != tags[k] {
          assert before[m] == tags[m];
        }
        assert tags[k] !in before;
      }
    }
  }

  // ---------------------------------------------------------------------
  // validate
  // ---------------------------------------------------------------------

  /** The largest value a small positive integer column holds. */
  const MaxSmallInt: int := 32767

  /** The character a text field may not hold. */
  const Nul: char := '\U{0}'

  /**
   * A required text column: absent (unless the update is partial) is an
   * error, and so is a value that is empty once its surrounding whitespace
   * is trimmed; the trimmed value then goes through the field's validators,
   * of which only the refusal of the null character applies here.
   */
  function TextProblems(f: Field, v: Option<string>, partial: bool): seq<(Field, Problem)> {
    match v
    case None => if partial then [] else [(f, Required)]
    case Some(s) =>
      if Strip(s) == "" then [(f, Blank)]
      else if Nul in Strip(s) then [(f, NullCharacter)]
      else []
  }

  /** Trimming removes only whitespace, so the null character survives it. */
  lemma NulSurvivesStrip(s: string)
    ensures Nul in Strip(s) <==> Nul in s
  {
    var a := SkipSpaces(s, 0);
    var t := Strip(s);
    if Nul in s {
      var k :| 0 <= k < |s| && s[k] == Nul;
      assert !IsSpace(s[k]);
      assert a <= k < a + |t|;
      assert t[k - a] == s[k];
    }
  }

  function ImageProblems(v: Option<ImageRef>, partial: bool): seq<(Field, Problem)> {
    if v.None? && !partial then [(ImageField, Required)] else []
  }

  /** `cooking_time`: required, at least one minute, and within the column's range. */
  function CookingTimeProblems(v: Option<int>, partial: bool): seq<(Field, Problem)> {
    match v
    case None => if partial then [] else [(CookingTimeField, Required)]
    case Some(t) =>
      if t < 1 then [(CookingTimeField, BelowMinimum)]
      else if t > MaxSmallInt then [(CookingTimeField, AboveMaximum)]
      else []
  }

  /**
   * The field-level checks that run before `validate`, all of them, in the
   * order the fields are declared; a partial update checks only the fields
   * it carries.
   */
  function FieldProblems(p: RecipePayload, partial: bool): seq<(Field, Problem)> {
    TextProblems(NameField, p.name, partial) + ImageProblems(p.image, partial)
    + TextProblems(TextField, p.text, partial) + CookingTimeProblems(p.cookingTime, partial)
  }

  /** The plain reading of a payload whose fields pass. */
  predicate FieldsComplete(p: RecipePayload, partial: bool) {
    (partial || (p.name.Some? && p.image.Some? && p.text.Some? && p.cookingTime.Some?))
    && (p.name.Some? ==> (exists i :: 0 <= i < |p.name.value| && !IsSpace(p.name.value[i])) && Nul !in p.name.value)
    && (p.text.Some? ==> (exists i :: 0 <= i < |p.text.value| && !IsSpace(p.text.value[i])) && Nul !in p.text.value)
    && (p.cookingTime.Some? ==> 1 <= p.cookingTime.value <= MaxSmallInt)
  }

  lemma FieldProblemsIff(p: RecipePayload, partial: bool)
    ensures FieldProblems(p, partial) == [] <==> FieldsComplete(p, partial)
  {
    if p.name.Some? {
      NulSurvivesStrip(p.name.value);
    }
    if p.text.Some? {
      NulSurvivesStrip(p.text.value);
    }
  }

  function StripField(v: Option<string>): Option<string> {
    match v
    case None => None
    case Some(s) => Some(Strip(s))
  }

  /** The validated data: the text fields are stored trimmed, everything else as sent. */
  function Cleaned(p: RecipePayload): RecipePayload {
    p.(name := StripField(p.name), text := StripField(p.text))
  }

  /**
   * The error a refused payload is answered with: every field error
   * together when there is one, else the first ingredient error, else the
   * first tag error.
   */
  predicate ValidationError(p: RecipePayload, partial: bool, knownIngredients: set<int>, knownTags: set<int>, e: ApiError) {
    if FieldProblems(p, partial) != [] then e == InvalidFields(FieldProblems(p, partial))
    else if !IngredientsAccepted(p.ingredients, knownIngredients) then FirstIngredientError(p.ingredients, knownIngredients, e)
    else FirstTagError(p.tags, knownTags, e)
  }

  predicate PayloadAccepted(p: RecipePayload, partial: bool, knownIngredients: set<int>, knownTags: set<int>) {
    FieldProblems(p, partial) == []
    && IngredientsAccepted(p.ingredients, knownIngredients)
    && TagsAccepted(p.tags, knownTags)
  }

  /**
   * Field checks, then `validate`: the ingredient list before the tag list.
   * A payload that passes is handed on with its text fields trimmed.
   */
  method Validate(p: RecipePayload, partial: bool, knownIngredients: set<int>, knownTags: set<int>)
    returns (r: Result<RecipePayload, ApiError>)
    ensures r.Success? <==> PayloadAccepted(p, partial, knownIngredients, knownTags)
    ensures r.Success? ==> r.value == Cleaned(p)
    ensures r.Failure? ==> ValidationError(p, partial, knownIngredients, knownTags, r.error)
  {
    var problems := FieldProblems(p, partial);
    if problems != [] {
      return Failure(InvalidFields(problems));
    }
    var ingredients := ValidateIngredients(p.ingredients, knownIngredients);
    if ingredients.Fail? {
      return Failure(ingredients.error);
    }
    var tags := ValidateTags(p.tags, knownTags);
    if tags.Fail? {
      return Failure(tags.error);
    }
    r := Success(Cleaned(p));
  }

  /**
   * The trimmed data passes validation again and is left as it is by a
   * second trim; each text field it carries is the sent value without its
   * surrounding whitespace, and neither starts nor ends with a space.
   */
  lemma CleanedPayload(p: RecipePayload, partial: bool, knownIngredients: set<int>, knownTags: set<int>)
    requires PayloadAccepted(p, partial, knownIngredients, knownTags)
    ensures PayloadAccepted(Cleaned(p), partial, knownIngredients, knownTags)
    ensures Cleaned(Cleaned(p)) == Cleaned(p)
    ensures Cleaned(p).ingredients == p.ingredients && Cleaned(p).tags == p.tags
    ensures p.name.Some? ==> Trimmed(p.name.value, Cleaned(p).name.value)
    ensures p.text.Some? ==> Trimmed(p.text.value, Cleaned(p).text.value)
  {
    if p.name.Some? {
      StripTrims(p.name.value);
    }
    if p.text.Some? {
      StripTrims(p.text.value);
    }
  }

  /** What a successful validation lets `create` and `update` rely on. */
  lemma AcceptedPayloadIsWellFormed(p: RecipePayload, partial: bool, knownIngredients: set<int>, knownTags: set<int>)
    requires PayloadAccepted(p, partial, knownIngredients, knownTags)
    ensures p.ingredients != [] && WellFormedItems(p.ingredients, knownIngredients)
    ensures p.tags != [] && WellFormedTags(p.tags, knownTags) && SetOf(p.tags) <= knownTags
    ensures FieldsComplete(p, partial)
  {
    FieldProblemsIff(p, partial);
    IngredientsAcceptedIff(p.ingredients, knownIngredients);
    TagsAcceptedIff(p.tags, knownTags);
  }

  // ---------------------------------------------------------------------
  // Ingredient lines of a recipe (_create_recipe_ingredients, get_ingredients).
  // ---------------------------------------------------------------------

  /** The rows `bulk_create` writes: one per payload item, in payload order. */
  function NewLines(recipeId: int, items: seq<IngredientItem>): seq<IngredientLine>
    requires forall k :: 0 <= k < |items| ==> items[k].amount >= 0
  {
    seq(|items|, k requires 0 <= k < |items| => IngredientLine(recipeId, items[k].id, items[k].amount))
  }

  lemma {:induction false} LinesOfNewLines(recipeId: int, other: int, items: seq<IngredientItem>)
    requires forall k :: 0 <= k < |items| ==> items[k].amount >= 0
    ensures LinesOf(NewLines(recipeId, items), recipeId) == NewLines(recipeId, items)
    ensures other != recipeId ==> LinesOf(NewLines(recipeId, items), other) == []
  {
    if items != [] {
      var lines := NewLines(recipeId, items);
      assert lines[1..] == NewLines(recipeId, items[1..]);
      LinesOfNewLines(recipeId, other, items[1..]);
    }
  }

  /** After replacing a recipe's lines, it has exactly the new ones and no other recipe's lines change. */
  lemma ReplacedLinesReadBack(lines: seq<IngredientLine>, recipeId: int, other: int, items: seq<IngredientItem>)
    requires forall k :: 0 <= k < |items| ==> items[k].amount >= 0
    ensures LinesOf(DropLines(lines, recipeId) + NewLines(recipeId, items), recipeId) == NewLines(recipeId, items)
    ensures other != recipeId ==>
      LinesOf(DropLines(lines, recipeId) + NewLines(recipeId, items), other) == LinesOf(lines, other)
  {
    LinesOfAppend(DropLines(lines, recipeId), NewLines(recipeId, items), recipeId);
    LinesOfAppend(DropLines(lines, recipeId), NewLines(recipeId, items), other);
    LinesOfDropLines(lines, recipeId, other);
    LinesOfNewLines(recipeId, other, items);
  }

  /** Writing well-formed items for a recipe with no lines keeps the line table's constraints. */
  lemma AppendNewLinesOk(lines: seq<IngredientLine>, recipeIds: set<int>, ingredientIds: set<int>,
                         recipeId: int, items: seq<IngredientItem>)
    requires LinesOk(lines, recipeIds, ingredientIds)
    requires recipeId in recipeIds
    requires forall i :: 0 <= i < |lines| ==> lines[i].recipe != recipeId
    requires WellFormedItems(items, ingredientIds)
    ensures LinesOk(lines + NewLines(recipeId, items), recipeIds, ingredientIds)
  {
    var added := NewLines(recipeId, items);
    var all := lines + added;
    forall i, j | 0 <= i < j < |all|
      ensures all[i].recipe != all[j].recipe || all[i].ingredient != all[j].ingredient
    {
      if j >= |lines| && i < |lines| {
        assert all[i] == lines[i] && all[j] == added[j - |lines|];
      } else if i >= |lines| {
        assert all[i] == added[i - |lines|] && all[j] == added[j - |lines|];
      }
    }
  }

  lemma OverwriteTwice<K, V>(m: map<K, V>, k: K, a: V, b: V)
    ensures m[k := a][k := b] == m[k := b]
  {
  }

  /** The lines written for a new recipe keep the table's constraints and are all the recipe has. */
  lemma NewRecipeLines(lines: seq<IngredientLine>, recipes: seq<Recipe>, nextId: int, users: set<int>,
                       codeLen: nat, ingredientIds: set<int>, items: seq<IngredientItem>)
    requires LinesOk(lines, RecipeIds(recipes), ingredientIds)
    requires RecipesOk(recipes, nextId, users, codeLen)
    requires WellFormedItems(items, ingredientIds)
    ensures LinesOk(lines + NewLines(nextId, items), RecipeIds(recipes) + {nextId}, ingredientIds)
    ensures LinesOf(lines + NewLines(nextId, items), nextId) == NewLines(nextId, items)
  {
    NextRecipeIdUnused(lines, recipes, nextId, users, codeLen, ingredientIds);
    AppendNewLinesOk(lines, RecipeIds(recipes) + {nextId}, ingredientIds, nextId, items);
    LinesOfAppend(lines, NewLines(nextId, items), nextId);
    LinesOfAbsent(lines, nextId);
    LinesOfNewLines(nextId, nextId, items);
  }

  // ---------------------------------------------------------------------
  // create / update
  // ---------------------------------------------------------------------

  /** `RecipeSerializer.create`: the caller becomes the author; tags and lines are written with the recipe. */
  method Create(db: Database, caller: Identity, data: RecipePayload, tokens: seq<string>)
    returns (res: Result<Recipe, ApiError>)
    requires db.Valid()
    requires caller.User? ==> caller.id in db.users
    requires FieldsComplete(data, false)
    requires WellFormedItems(data.ingredients, IngredientIds(db.ingredients))
    requires SetOf(data.tags) <= TagIds(db.tags)
    requires forall t :: t in tokens ==> TokenShaped(t, db.shortUrlLen)
    modifies db
    ensures db.Valid()
    ensures caller.Anonymous? ==> res == Failure(NotAuthenticated)
    ensures caller.User? ==> (res.Failure? <==> CodesExhausted(ShortUrls(old(db.recipes)), tokens, db.shortUrlLen))
    ensures caller.User? && res.Failure? ==> res.error == CodeSpaceExhausted
    ensures res.Failure? ==> unchanged(db)
    ensures res.Success? ==> caller == User(res.value.author) && res.value.id == old(db.nextRecipeId)
    ensures res.Success? ==> db.nextRecipeId == old(db.nextRecipeId) + 1
    ensures res.Success? ==> res.value.name == data.name.value && res.value.text == data.text.value
    ensures res.Success? ==> res.value.image == data.image && res.value.cookingTime == data.cookingTime.value
    ensures res.Success? ==> res.value.shortUrl !in ShortUrls(old(db.recipes)) && |res.value.shortUrl| == db.shortUrlLen
    ensures res.Success? ==> db.recipes == [res.value] + old(db.recipes)
    ensures res.Success? ==> db.recipeTags == old(db.recipeTags)[res.value.id := SetOf(data.tags)]
    ensures res.Success? ==> db.lines == old(db.lines) + NewLines(res.value.id, data.ingredients)
    ensures res.Success? ==> LinesOf(db.lines, res.value.id) == NewLines(res.value.id, data.ingredients)
    ensures db.State() == old(db.State()).(recipes := db.recipes, nextRecipeId := db.nextRecipeId,
                                           recipeTags := db.recipeTags, lines := db.lines)
  {
    if caller.Anonymous? {
      return Failure(NotAuthenticated);
    }
    var draft := Recipe(0, caller.id, data.name.value, data.text.value, data.image,
                        data.cookingTime.value, "");
    var saved := db.Save(draft, true, tokens);
    if saved.Failure? {
      return saved;
    }
    var r := saved.value;
    db.SetTags(r.id, SetOf(data.tags));
    OverwriteTwice(old(db.recipeTags), r.id, {}, SetOf(data.tags));
    NewRecipeLines(old(db.lines), old(db.recipes), r.id, db.users, db.shortUrlLen, IngredientIds(db.ingredients), data.ingredients);
    db.BulkCreateLines(NewLines(r.id, data.ingredients));
    res := Success(r);
  }

  /**
   * `RecipeSerializer.update`: the fields present in the payload overwrite
   * the recipe's, a new image replaces the old one, the short code is kept;
   * a non-empty tag list replaces the tag set and a non-empty ingredient
   * list replaces every ingredient line.
   */
  method Update(db: Database, instance: Recipe, data: RecipePayload) returns (r: Recipe)
    requires db.Valid()
    requires instance in db.recipes
    requires FieldsComplete(data, true)
    requires WellFormedItems(data.ingredients, IngredientIds(db.ingredients))
    requires SetOf(data.tags) <= TagIds(db.tags)
    modifies db
    ensures db.Valid()
    ensures r.id == instance.id && r.author == instance.author && r.shortUrl == instance.shortUrl
    ensures r.name == data.name.GetOr(instance.name) && r.text == data.text.GetOr(instance.text)
    ensures r.cookingTime == data.cookingTime.GetOr(instance.cookingTime)
    ensures r.image == (if data.image.Some? then data.image else instance.image)
    ensures db.recipes == ReplaceRow(old(db.recipes), r)
    ensures db.recipeTags == if data.tags != [] then old(db.recipeTags)[r.id := SetOf(data.tags)] else old(db.recipeTags)
    ensures db.lines == if data.ingredients != [] then DropLines(old(db.lines), r.id) + NewLines(r.id, data.ingredients)
                        else old(db.lines)
    ensures db.State() == old(db.State()).(recipes := db.recipes, recipeTags := db.recipeTags, lines := db.lines)
  {
    // super().update assigns the scalar fields and saves; the explicit
    // save() that follows writes the same row again with the new image.
    var changed := instance.(
      name := data.name.GetOr(instance.name),
      text := data.text.GetOr(instance.text),
      cookingTime := data.cookingTime.GetOr(instance.cookingTime));
    if data.image.Some? {
      changed := changed.(image := data.image);
    }
    var k :| 0 <= k < |db.recipes| && db.recipes[k] == instance;
    assert RecipeRowOk(db.recipes[k], db.nextRecipeId, db.users, db.shortUrlLen);
    var saved := db.Save(changed, false, []);
    r := saved.value;
    assert r.id in RecipeIds(db.recipes) by {
      assert db.recipes[k].id == r.id;
      assert db.recipes[k] in db.recipes;
    }
    if data.tags != [] {
      db.SetTags(r.id, SetOf(data.tags));
    }
    if data.ingredients != [] {
      db.ClearLines(r.id);
      AppendNewLinesOk(db.lines, RecipeIds(db.recipes), IngredientIds(db.ingredients), r.id, data.ingredients);
      db.BulkCreateLines(NewLines(r.id, data.ingredients));
    }
  }

  // ---------------------------------------------------------------------
  // Read-side projections.
  // ---------------------------------------------------------------------

  /** One element of a recipe's `ingredients` field. */
  datatype LineView = LineView(id: int, name: string, unit: string, amount: nat)

  function FindIngredient(catalog: seq<Ingredient>, id: int): (r: Option<Ingredient>)
    ensures r.Some? <==> id in IngredientIds(catalog)
    ensures r.Some? ==> r.value in catalog && r.value.id == id
  {
    if catalog == [] then None
    else if catalog[0].id == id then Some(catalog[0])
    else
      assert catalog == [catalog[0]] + catalog[1..];
      FindIngredient(catalog[1..], id)
  }

  /** `get_ingredients`: each line of the recipe with its ingredient's name and unit. */
  function GetIngredients(lines: seq<IngredientLine>, catalog: seq<Ingredient>, recipeId: int): (r: seq<LineView>)
    requires forall l :: l in lines ==> l.ingredient in IngredientIds(catalog)
    ensures |r| == |LinesOf(lines, recipeId)|
    ensures forall k :: 0 <= k < |r| ==>
      var line := LinesOf(lines, recipeId)[k];
      r[k].id == line.ingredient && r[k].amount == line.amount
      && Ingredient(r[k].id, r[k].name, r[k].unit) in catalog
  {
    if lines == [] then []
    else
      var rest := GetIngredients(lines[1..], catalog, recipeId);
      if lines[0].recipe == recipeId then
        var ing := FindIngredient(catalog, lines[0].ingredient).value;
        [LineView(ing.id, ing.name, ing.unit, lines[0].amount)] + rest
      else rest
  }

  /** `get_is_favorited` / `get_is_in_shopping_cart`: an anonymous caller never has the mark. */
  function IsMarked(rows: seq<Pair>, caller: Identity, recipeId: int): (r: bool)
    ensures r ==> caller.User?
    ensures caller.User? ==> (r <==> exists k :: 0 <= k < |rows| && rows[k].0 == caller.id && rows[k].1 == recipeId)
  {
    caller.User? && (caller.id, recipeId) in rows
  }

  // ---------------------------------------------------------------------
  // SubscriptionSerializer: recipes / recipes_count.
  // ---------------------------------------------------------------------

  /** The short form a recipe is listed in (ShortRecipeSerializer). */
  datatype ShortRecipe = ShortRecipe(id: int, name: string, image: Option<ImageRef>, cookingTime: int)

  function Short(r: Recipe): ShortRecipe {
    ShortRecipe(r.id, r.name, r.image, r.cookingTime)
  }

  /** An author's recipes, newest first. */
  function AuthoredBy(recipes: seq<Recipe>, author: int): (r: seq<Recipe>)
    ensures forall x :: x in r <==> x in recipes && x.author == author
    ensures |r| <= |recipes|
  {
    if recipes == [] then []
    else
      assert recipes == [recipes[0]] + recipes[1..];
      (if recipes[0].author == author then [recipes[0]] else []) + AuthoredBy(recipes[1..], author)
  }

  /**
   * `get_recipes`: the author's recipes, cut to `recipes_limit` when the
   * parameter is given; a negative limit makes the queryset slice raise.
   */
  function GetRecipes(recipes: seq<Recipe>, author: int, limit: Option<int>): (r: Result<seq<ShortRecipe>, ApiError>)
    ensures limit.Some? && limit.value < 0 <==> r.Failure?
    ensures r.Failure? ==> r.error == ServerError
    ensures r.Success? ==>
      var all := AuthoredBy(recipes, author);
      && |r.value| == (if limit.None? || limit.value > |all| then |all| else limit.value)
      && forall k :: 0 <= k < |r.value| ==> r.value[k] == Short(all[k])
  {
    var all := AuthoredBy(recipes, author);
    var shown := if limit.None? then all
                 else if limit.value < 0 then []
                 else if limit.value >= |all| then all
                 else all[..limit.value];
    if limit.Some? && limit.value < 0 then Failure(ServerError)
    else Success(seq(|shown|, k requires 0 <= k < |shown| => Short(shown[k])))
  }

  /** `get_recipes_count`: how many recipes the author has. */
  function GetRecipesCount(recipes: seq<Recipe>, author: int): (r: nat)
    ensures r <= |recipes|
    ensures r == 0 <==> forall x :: x in recipes ==> x.author != author
  {
    var mine := AuthoredBy(recipes, author);
    assert mine != [] ==> mine[0] in mine;
    |mine|
  }

  /**
   * The preview never lists more than the author has, lists all of them
   * without a limit, and the count is the full total whatever the limit.
   */
  lemma PreviewAndCount(recipes: seq<Recipe>, author: int, limit: Option<int>)
    ensures GetRecipes(recipes, author, limit).Success? ==>
      |GetRecipes(recipes, author, limit).value| <= GetRecipesCount(recipes, author)
    ensures limit.None? ==> |GetRecipes(recipes, author, limit).value| == GetRecipesCount(recipes, author)
    ensures limit.Some? && 0 <= limit.value <= GetRecipesCount(recipes, author) ==>
      |GetRecipes(recipes, author, limit).value| == limit.value
  {
  }
}
