/**
 * The persistent entities of the recipe service (backend/foodgram/models.py):
 * the ingredient and tag catalogs, recipes with their ingredient lines and
 * tag sets, the favorite / shopping-cart / subscription tables, and the
 * short public code every recipe receives when it is first saved.
 *
 * The database is one object whose fields are the tables. Each table is a
 * sequence of rows in storage order (recipes newest first, the order
 * `Meta.ordering = ['-pub_date']` gives them); the constraints the schema
 * declares, and the ones the endpoints maintain, are collected in `Valid()`.
 */
module Models {
  import opened Wrappers
  import opened Text

  /** Who sends a request: an anonymous visitor or a signed-in user. */
  datatype Identity = Anonymous | User(id: int)

  datatype Ingredient = Ingredient(id: int, name: string, unit: string)

  datatype Tag = Tag(id: int, name: string, slug: string)

  /** An uploaded image is kept only as an opaque reference to the blob store. */
  type ImageRef = string

  datatype Recipe = Recipe(
    id: int,
    author: int,
    name: string,
    text: string,
    image: Option<ImageRef>,
    cookingTime: int,
    shortUrl: string)

  /** A row of the recipe/ingredient join table: `amount` is a non-negative small integer. */
  datatype IngredientLine = IngredientLine(recipe: int, ingredient: int, amount: nat)

  /**
   * A row of a membership table: (user, recipe) for favorites and the
   * shopping cart, (follower, author) for subscriptions.
   */
  type Pair = (int, int)

  // ---------------------------------------------------------------------
  // Errors reported to the caller.
  // ---------------------------------------------------------------------

  /** The payload field a validation error is reported under. */
  datatype Field =
    | NameField | ImageField | TextField | CookingTimeField
    | IngredientsField | TagsField | AmountField

  datatype Problem =
    | Required           // the list or field is missing or empty
    | Blank              // a text field given as the empty string
    | NullCharacter      // a text field holding the character U+0000
    | UnknownId(id: int) // no catalog row has this id; the message names it
    | Repeated           // the id already occurred earlier in the list
    | NotPositive        // an ingredient amount of zero or less
    | BelowMinimum       // a cooking time under one minute
    | AboveMaximum       // a cooking time beyond a small integer column

  /** Why a membership request was refused with status 400. */
  datatype Reason = SelfSubscription | AlreadyPresent | NotPresent

  datatype ApiError =
    | NotAuthenticated
    | PermissionDenied
    | NotFound
    | MethodNotAllowed
    | BadRequest(reason: Reason)
    | Invalid(field: Field, problem: Problem)           // raised by `validate`
    | InvalidFields(problems: seq<(Field, Problem)>)   // every field-level error at once
    | CodeSpaceExhausted // every injected candidate code was already taken
    | ServerError        // an exception the source does not catch

  // ---------------------------------------------------------------------
  // Short codes (Recipe._generate_short_code, Recipe.get_short_url).
  // ---------------------------------------------------------------------

  predicate UrlSafeChar(c: char) {
    'A' <= c <= 'Z' || 'a' <= c <= 'z' || '0' <= c <= '9' || c == '-' || c == '_'
  }

  predicate UrlSafe(s: string) {
    forall i :: 0 <= i < |s| ==> UrlSafeChar(s[i])
  }

  /**
   * What `secrets.token_urlsafe(n)` hands back: the base64url text of `n`
   * random bytes, so at least `n` characters, all from the URL-safe alphabet.
   */
  predicate TokenShaped(token: string, n: nat) {
    |token| >= n && UrlSafe(token)
  }

  /** A candidate code: the first `n` characters of a token, as `token[:n]`. */
  function Candidate(token: string, n: nat): string {
    if |token| <= n then token else token[..n]
  }

  /** Every candidate the tokens give is already held: the draw finds no free code. */
  predicate CodesExhausted(taken: set<string>, tokens: seq<string>, n: nat) {
    forall k :: 0 <= k < |tokens| ==> Candidate(tokens[k], n) in taken
  }

  function ShortUrls(recipes: seq<Recipe>): set<string> {
    set r | r in recipes :: r.shortUrl
  }

  /**
   * Draws candidates from the injected tokens, in order, until one is not
   * held by any recipe. Running out of tokens stands for the retry loop
   * never finding a free code.
   */
  method GenerateShortCode(taken: set<string>, tokens: seq<string>, n: nat) returns (code: Option<string>)
    requires forall t :: t in tokens ==> TokenShaped(t, n)
    ensures code.Some? ==> code.value !in taken
    ensures code.Some? ==> |code.value| == n && UrlSafe(code.value)
    ensures code.Some? ==> exists k :: 0 <= k < |tokens| && code.value == Candidate(tokens[k], n)
                                 && forall j :: 0 <= j < k ==> Candidate(tokens[j], n) in taken
    ensures code.None? <==> CodesExhausted(taken, tokens, n)
  {
    var i := 0;
    while i < |tokens| && Candidate(tokens[i], n) in taken
      invariant 0 <= i <= |tokens|
      invariant forall j :: 0 <= j < i ==> Candidate(tokens[j], n) in taken
    {
      i := i + 1;
    }
    if i == |tokens| {
      code := None;
    } else {
      assert tokens[i] in tokens;
      code := Some(Candidate(tokens[i], n));
    }
  }

  /** The public link of a recipe: the absolute form of `/s/<code>/`. */
  function ShortLink(base: string, code: string): string {
    base + "/s/" + code + "/"
  }

  /** Reads the code back out of a public link built on `base`. */
  function CodeOfLink(base: string, link: string): Option<string> {
    if |link| >= |base| + 4 && link[..|base| + 3] == base + "/s/" && link[|link| - 1] == '/'
    then Some(link[|base| + 3..|link| - 1])
    else None
  }

  /** A link is built deterministically from the code, and the code can be read back from it. */
  lemma {:induction false} ShortLinkRoundTrip(base: string, code: string)
    ensures CodeOfLink(base, ShortLink(base, code)) == Some(code)
  {
    var link := ShortLink(base, code);
    assert link[..|base| + 3] == base + "/s/";
    assert link[|base| + 3..|link| - 1] == code;
  }

  /** Two recipes with different codes never share a public link. */
  lemma ShortLinkInjective(base: string, c1: string, c2: string)
    requires ShortLink(base, c1) == ShortLink(base, c2)
    ensures c1 == c2
  {
    ShortLinkRoundTrip(base, c1);
    ShortLinkRoundTrip(base, c2);
  }

  // ---------------------------------------------------------------------
  // Ordering by name (`Meta.ordering = ['name']`, `order_by('name')`).
  // ---------------------------------------------------------------------

  predicate SortedByName(s: seq<Ingredient>) {
    forall i, j :: 0 <= i < j < |s| ==> LexLe(s[i].name, s[j].name)
  }

  function InsertByName(x: Ingredient, s: seq<Ingredient>): seq<Ingredient> {
    if s == [] then [x]
    else if LexLe(x.name, s[0].name) then [x] + s
    else [s[0]] + InsertByName(x, s[1..])
  }

  lemma {:induction false} InsertByNameSorted(x: Ingredient, s: seq<Ingredient>)
    requires SortedByName(s)
    ensures SortedByName(InsertByName(x, s))
    ensures multiset(InsertByName(x, s)) == multiset(s) + multiset{x}
  {
    if s == [] {
    } else if LexLe(x.name, s[0].name) {
      var t := [x] + s;
      forall k | 1 <= k < |t| ensures LexLe(x.name, t[k].name) {
        if k > 1 { LexLeTransitive(x.name, s[0].name, s[k - 1].name); }
      }
      assert SortedByName(t);
    } else {
      LexLeTotal(x.name, s[0].name);
      var rest := InsertByName(x, s[1..]);
      InsertByNameSorted(x, s[1..]);
      assert s == [s[0]] + s[1..];
      forall k | 0 <= k < |rest| ensures LexLe(s[0].name, rest[k].name) {
        assert rest[k] in multiset(rest);
        if rest[k] != x {
          assert rest[k] in multiset(s[1..]);
          var m :| 0 <= m < |s[1..]| && s[1..][m] == rest[k];
          assert s[m + 1] == rest[k];
        }
      }
      var t := [s[0]] + rest;
      assert SortedByName(t);
    }
  }

  /** Sorts a catalog slice by name; the result holds exactly the same rows. */
  function OrderByName(s: seq<Ingredient>): (r: seq<Ingredient>)
    ensures SortedByName(r)
    ensures multiset(r) == multiset(s)
  {
    if s == [] then []
    else
      var rest := OrderByName(s[1..]);
      InsertByNameSorted(s[0], rest);
      assert s == [s[0]] + s[1..];
      InsertByName(s[0], rest)
  }

  /** When names are unique, the sorted order is strict: no two rows tie. */
  lemma OrderByNameStrict(s: seq<Ingredient>)
    requires UniqueNames(s)
    ensures forall i, j :: 0 <= i < j < |OrderByName(s)| ==> OrderByName(s)[i].name != OrderByName(s)[j].name
  {
    var r := OrderByName(s);
    forall i, j | 0 <= i < j < |r| ensures r[i].name != r[j].name {
      assert r[i] in multiset(s) && r[j] in multiset(s);
      var a :| 0 <= a < |s| && s[a] == r[i];
      var b :| 0 <= b < |s| && s[b] == r[j];
      if a == b {
        // the same row twice in r means it occurs twice in s
        MultisetTwice(r, i, j);
        assert multiset(s)[s[a]] >= 2;
        CountOnceWhenUnique(s, a);
      }
    }
  }

  lemma MultisetTwice<T>(s: seq<T>, i: int, j: int)
    requires 0 <= i < j < |s| && s[i] == s[j]
    ensures multiset(s)[s[i]] >= 2
  {
    assert s == s[..i] + [s[i]] + s[i + 1..j] + [s[j]] + s[j + 1..];
  }

  lemma CountOnceWhenUnique(s: seq<Ingredient>, a: int)
    requires UniqueNames(s) && 0 <= a < |s|
    ensures multiset(s)[s[a]] == 1
  {
    assert s == s[..a] + [s[a]] + s[a + 1..];
    assert forall m :: 0 <= m < a ==> s[..a][m] != s[a];
    assert s[a] !in multiset(s[..a]);
    var after := s[a + 1..];
    forall m | 0 <= m < |after| ensures after[m] != s[a] {
      assert after[m] == s[a + 1 + m];
    }
    assert s[a] !in multiset(after);
  }

  // ---------------------------------------------------------------------
  // Table constraints.
  // ---------------------------------------------------------------------

  predicate UniqueNames(ings: seq<Ingredient>) {
    forall i, j :: 0 <= i < j < |ings| ==> ings[i].name != ings[j].name
  }

  /** The (name, measurement unit) pair of every catalog row, in catalog order. */
  function Keys(ings: seq<Ingredient>): seq<(string, string)> {
    seq(|ings|, k requires 0 <= k < |ings| => (ings[k].name, ings[k].unit))
  }

  /** The names among some (name, unit) pairs, in order. */
  function KeyNames(keys: seq<(string, string)>): seq<string> {
    seq(|keys|, k requires 0 <= k < |keys| => keys[k].0)
  }

  /** The catalog has a row with exactly this name and unit: the lookup `get_or_create` tries first. */
  predicate HasIngredient(ings: seq<Ingredient>, name: string, unit: string) {
    (name, unit) in Keys(ings)
  }

  /** Some row of the catalog already carries this name, with whatever unit. */
  predicate NameTaken(ings: seq<Ingredient>, name: string) {
    name in KeyNames(Keys(ings))
  }

  /** A name no row carries differs from the name of every row. */
  lemma NameFree(ings: seq<Ingredient>, name: string)
    requires !NameTaken(ings, name)
    ensures forall i :: i in ings ==> i.name != name
  {
    forall i | i in ings ensures i.name != name {
      var k :| 0 <= k < |ings| && ings[k] == i;
      assert KeyNames(Keys(ings))[k] == i.name;
    }
  }

  function IngredientIds(ings: seq<Ingredient>): set<int> {
    set i | i in ings :: i.id
  }

  function TagIds(tags: seq<Tag>): set<int> {
    set t | t in tags :: t.id
  }

  function RecipeIds(recipes: seq<Recipe>): set<int> {
    set r | r in recipes :: r.id
  }

  /** Ingredient ids and names are unique (models.py: `unique=True` on name); ids come from a counter. */
  predicate IngredientsOk(ings: seq<Ingredient>, nextId: int) {
    UniqueNames(ings)
    && (forall i, j :: 0 <= i < j < |ings| ==> ings[i].id != ings[j].id)
    && (forall i :: 0 <= i < |ings| ==> 0 <= ings[i].id < nextId)
  }

  predicate TagsOk(tags: seq<Tag>) {
    forall i, j :: 0 <= i < j < |tags| ==>
      tags[i].id != tags[j].id && tags[i].name != tags[j].name && tags[i].slug != tags[j].slug
  }

  predicate RecipeRowOk(r: Recipe, nextId: int, users: set<int>, codeLen: nat) {
    0 <= r.id < nextId && r.author in users && r.cookingTime >= 1
    && r.shortUrl != "" && |r.shortUrl| <= codeLen
  }

  /** Recipe ids and short codes are unique; every cooking time is at least one minute. */
  predicate RecipesOk(recipes: seq<Recipe>, nextId: int, users: set<int>, codeLen: nat) {
    (forall i, j :: 0 <= i < j < |recipes| ==>
      recipes[i].id != recipes[j].id && recipes[i].shortUrl != recipes[j].shortUrl)
    && (forall i :: 0 <= i < |recipes| ==> RecipeRowOk(recipes[i], nextId, users, codeLen))
  }

  /** At most one line per (recipe, ingredient) (the `unique_ingredients` constraint), and no dangling keys. */
  predicate LinesOk(lines: seq<IngredientLine>, recipeIds: set<int>, ingredientIds: set<int>) {
    (forall i, j :: 0 <= i < j < |lines| ==>
      lines[i].recipe != lines[j].recipe || lines[i].ingredient != lines[j].ingredient)
    && (forall i :: 0 <= i < |lines| ==> lines[i].recipe in recipeIds && lines[i].ingredient in ingredientIds)
  }

  /**
   * No pair occurs twice. The schema declares no constraint for the
   * membership tables, so this holds only because the add endpoints check
   * for the pair before inserting it.
   */
  predicate NoDuplicates(rows: seq<Pair>) {
    forall i, j :: 0 <= i < j < |rows| ==> rows[i] != rows[j]
  }

  predicate NoSelfPairs(rows: seq<Pair>) {
    forall i :: 0 <= i < |rows| ==> rows[i].0 != rows[i].1
  }

  /** How many rows equal `p`: the number of rows a join on this table matches. */
  function Count(rows: seq<Pair>, p: Pair): nat {
    if rows == [] then 0 else (if rows[0] == p then 1 else 0) + Count(rows[1..], p)
  }

  /** In a table without duplicates a pair is matched once if present and never otherwise. */
  lemma {:induction false} CountWithoutDuplicates(rows: seq<Pair>, p: Pair)
    requires NoDuplicates(rows)
    ensures Count(rows, p) == if p in rows then 1 else 0
  {
    if rows != [] {
      CountWithoutDuplicates(rows[1..], p);
      assert forall m :: 0 <= m < |rows[1..]| ==> rows[1..][m] != rows[0] by {
        forall m | 0 <= m < |rows[1..]| ensures rows[1..][m] != rows[0] {
          assert rows[1..][m] == rows[m + 1];
        }
      }
      assert rows[0] !in rows[1..];
      assert p in rows <==> rows[0] == p || p in rows[1..];
    }
  }

  /** A join on the table matches a pair at least once exactly when the pair is stored. */
  lemma {:induction false} CountPositive(rows: seq<Pair>, p: Pair)
    ensures Count(rows, p) > 0 <==> p in rows
  {
    if rows != [] {
      CountPositive(rows[1..], p);
      assert rows == [rows[0]] + rows[1..];
    }
  }

  // ---------------------------------------------------------------------
  // The recipe-ingredient line table.
  // ---------------------------------------------------------------------

  /** The lines of one recipe, in table order. */
  function LinesOf(lines: seq<IngredientLine>, recipeId: int): seq<IngredientLine> {
    if lines == [] then []
    else (if lines[0].recipe == recipeId then [lines[0]] else []) + LinesOf(lines[1..], recipeId)
  }

  /** The table after `instance.ingredients.clear()`: every line of the recipe removed. */
  function DropLines(lines: seq<IngredientLine>, recipeId: int): seq<IngredientLine> {
    if lines == [] then []
    else (if lines[0].recipe == recipeId then [] else [lines[0]]) + DropLines(lines[1..], recipeId)
  }

  lemma {:induction false} LinesOfAppend(a: seq<IngredientLine>, b: seq<IngredientLine>, recipeId: int)
    ensures LinesOf(a + b, recipeId) == LinesOf(a, recipeId) + LinesOf(b, recipeId)
  {
    if a != [] {
      var head := if a[0].recipe == recipeId then [a[0]] else [];
      assert (a + b)[0] == a[0] && (a + b)[1..] == a[1..] + b;
      LinesOfAppend(a[1..], b, recipeId);
      calc {
        LinesOf(a + b, recipeId);
        head + LinesOf(a[1..] + b, recipeId);
        head + (LinesOf(a[1..], recipeId) + LinesOf(b, recipeId));
        (head + LinesOf(a[1..], recipeId)) + LinesOf(b, recipeId);
      }
    } else {
      assert a + b == b;
    }
  }

  lemma {:induction false} LinesOfDropLines(lines: seq<IngredientLine>, recipeId: int, other: int)
    ensures LinesOf(DropLines(lines, recipeId), recipeId) == []
    ensures other != recipeId ==> LinesOf(DropLines(lines, recipeId), other) == LinesOf(lines, other)
  {
    if lines != [] {
      LinesOfDropLines(lines[1..], recipeId, other);
      var head := if lines[0].recipe == recipeId then [] else [lines[0]];
      LinesOfAppend(head, DropLines(lines[1..], recipeId), recipeId);
      LinesOfAppend(head, DropLines(lines[1..], recipeId), other);
    }
  }

  /** A recipe no line refers to has no lines. */
  lemma {:induction false} LinesOfAbsent(lines: seq<IngredientLine>, recipeId: int)
    requires forall i :: 0 <= i < |lines| ==> lines[i].recipe != recipeId
    ensures LinesOf(lines, recipeId) == []
  {
    if lines != [] { LinesOfAbsent(lines[1..], recipeId); }
  }

  lemma {:induction false} DropLinesKeepsOthers(lines: seq<IngredientLine>, recipeId: int)
    ensures forall l :: l in DropLines(lines, recipeId) <==> l in lines && l.recipe != recipeId
  {
    if lines != [] {
      DropLinesKeepsOthers(lines[1..], recipeId);
      assert lines == [lines[0]] + lines[1..];
    }
  }

  /** Clearing a recipe's lines keeps the table's constraints and leaves none of that recipe. */
  lemma {:induction false} DropLinesOk(lines: seq<IngredientLine>, recipeId: int, recipeIds: set<int>, ingredientIds: set<int>)
    requires LinesOk(lines, recipeIds, ingredientIds)
    ensures LinesOk(DropLines(lines, recipeId), recipeIds, ingredientIds)
    ensures forall i :: 0 <= i < |DropLines(lines, recipeId)| ==> DropLines(lines, recipeId)[i].recipe != recipeId
  {
    if lines != [] {
      var tail := lines[1..];
      assert LinesOk(tail, recipeIds, ingredientIds) by {
        forall i, j | 0 <= i < j < |tail|
          ensures tail[i].recipe != tail[j].recipe || tail[i].ingredient != tail[j].ingredient
        {
          assert tail[i] == lines[i + 1] && tail[j] == lines[j + 1];
        }
      }
      DropLinesOk(tail, recipeId, recipeIds, ingredientIds);
      DropLinesKeepsOthers(tail, recipeId);
      var rest := DropLines(tail, recipeId);
      if lines[0].recipe != recipeId {
        var kept := [lines[0]] + rest;
        assert kept == DropLines(lines, recipeId);
        forall j | 0 <= j < |rest|
          ensures lines[0].recipe != rest[j].recipe || lines[0].ingredient != rest[j].ingredient
        {
          assert rest[j] in rest;
          var m :| 0 <= m < |tail| && tail[m] == rest[j];
          assert lines[m + 1] == rest[j];
        }
        forall i, j | 0 <= i < j < |kept|
          ensures kept[i].recipe != kept[j].recipe || kept[i].ingredient != kept[j].ingredient
        {
          assert kept[j] == rest[j - 1];
          if i > 0 { assert kept[i] == rest[i - 1]; }
        }
        forall i | 0 <= i < |kept|
          ensures kept[i].recipe in recipeIds && kept[i].ingredient in ingredientIds
        {
          if i > 0 { assert kept[i] == rest[i - 1]; }
        }
      }
    }
  }

  /** The next recipe id is not referenced by any line yet. */
  lemma NextRecipeIdUnused(lines: seq<IngredientLine>, recipes: seq<Recipe>, nextId: int, users: set<int>,
                           codeLen: nat, ingredientIds: set<int>)
    requires LinesOk(lines, RecipeIds(recipes), ingredientIds)
    requires RecipesOk(recipes, nextId, users, codeLen)
    ensures forall i :: 0 <= i < |lines| ==> lines[i].recipe != nextId
  {
    forall i | 0 <= i < |lines| ensures lines[i].recipe != nextId {
      var m :| m in recipes && m.id == lines[i].recipe;
      var k :| 0 <= k < |recipes| && recipes[k] == m;
      assert RecipeRowOk(recipes[k], nextId, users, codeLen);
    }
  }

  /** A row with a new name and the next id keeps the catalog's constraints and only adds its id. */
  lemma AppendIngredientOk(ings: seq<Ingredient>, row: Ingredient, nextId: int)
    requires IngredientsOk(ings, nextId)
    requires row.id == nextId && nextId >= 0
    requires forall i :: i in ings ==> i.name != row.name
    ensures IngredientsOk(ings + [row], nextId + 1)
    ensures IngredientIds(ings + [row]) == IngredientIds(ings) + {row.id}
  {
    var all := ings + [row];
    forall i, j | 0 <= i < j < |all| ensures all[i].name != all[j].name && all[i].id != all[j].id {
      if j == |ings| {
        assert all[i] == ings[i] && ings[i] in ings;
      }
    }
    forall i | 0 <= i < |all| ensures 0 <= all[i].id < nextId + 1 {
      if i < |ings| { assert all[i] == ings[i]; }
    }
  }

  // ---------------------------------------------------------------------
  // The database.
  // ---------------------------------------------------------------------

  /** Every table of the store and both id counters, taken as one value. */
  datatype Store = Store(
    users: set<int>,
    tags: seq<Tag>,
    ingredients: seq<Ingredient>,
    nextIngredientId: nat,
    recipes: seq<Recipe>,
    nextRecipeId: nat,
    recipeTags: map<int, set<int>>,
    lines: seq<IngredientLine>,
    favorites: seq<Pair>,
    carts: seq<Pair>,
    subscriptions: seq<Pair>)

  class Database {
    var users: set<int>
    var tags: seq<Tag>
    var ingredients: seq<Ingredient>
    var nextIngredientId: nat
    var recipes: seq<Recipe>
    var nextRecipeId: nat
    var recipeTags: map<int, set<int>>
    var lines: seq<IngredientLine>
    var favorites: seq<Pair>
    var carts: seq<Pair>
    var subscriptions: seq<Pair>
    /** SHORT_URL_LEN: the length of every short code (a configuration constant). */
    const shortUrlLen: nat

    ghost predicate Valid()
      reads this
    {
      shortUrlLen >= 1
      && IngredientsOk(ingredients, nextIngredientId)
      && TagsOk(tags)
      && RecipesOk(recipes, nextRecipeId, users, shortUrlLen)
      && recipeTags.Keys == RecipeIds(recipes)
      && (forall id :: id in recipeTags ==> recipeTags[id] <= TagIds(tags))
      && LinesOk(lines, RecipeIds(recipes), IngredientIds(ingredients))
      && NoDuplicates(favorites) && NoDuplicates(carts) && NoDuplicates(subscriptions)
      && NoSelfPairs(subscriptions)
    }

    /** Every table except the ingredient catalog and its id counter. */
    ghost function OtherTables(): (set<int>, seq<Tag>, seq<Recipe>, nat, map<int, set<int>>, seq<IngredientLine>, seq<Pair>, seq<Pair>, seq<Pair>)
      reads this
    {
      (users, tags, recipes, nextRecipeId, recipeTags, lines, favorites, carts, subscriptions)
    }

    /** The whole store: an endpoint states its frame as this value with the tables it writes replaced. */
    ghost function State(): Store
      reads this
    {
      Store(users, tags, ingredients, nextIngredientId, recipes, nextRecipeId, recipeTags, lines,
            favorites, carts, subscriptions)
    }

    /** An empty store over the given users and the static tag catalog. */
    constructor (users: set<int>, tags: seq<Tag>, shortUrlLen: nat)
      requires shortUrlLen >= 1 && TagsOk(tags)
      ensures Valid()
      ensures this.users == users && this.tags == tags && this.shortUrlLen == shortUrlLen
      ensures ingredients == [] && recipes == [] && lines == [] && recipeTags == map[]
      ensures favorites == [] && carts == [] && subscriptions == []
    {
      this.users := users;
      this.tags := tags;
      this.shortUrlLen := shortUrlLen;
      ingredients := [];
      nextIngredientId := 0;
      recipes := [];
      nextRecipeId := 0;
      recipeTags := map[];
      lines := [];
      favorites := [];
      carts := [];
      subscriptions := [];
    }

    /**
     * `Ingredient.objects.get_or_create(name=.., measurement_unit=..)`: the
     * existing row is kept when one matches both fields; otherwise a new
     * row with the next id is inserted. When the name is already stored
     * with another unit the insert breaks the unique name column and the
     * integrity error escapes to the caller, with nothing written.
     */
    method GetOrCreateIngredient(name: string, unit: string) returns (r: Result<bool, ApiError>)
      requires Valid()
      modifies this
      ensures Valid()
      ensures r.Success? <==> HasIngredient(old(ingredients), name, unit) || !NameTaken(old(ingredients), name)
      ensures r.Success? ==> (r.value <==> !HasIngredient(old(ingredients), name, unit))
      ensures r.Failure? ==> r.error == ServerError
      ensures ingredients == old(ingredients) + (if r == Success(true) then [Ingredient(old(nextIngredientId), name, unit)] else [])
      ensures nextIngredientId == old(nextIngredientId) + (if r == Success(true) then 1 else 0)
      ensures OtherTables() == old(OtherTables())
    {
      if HasIngredient(ingredients, name, unit) {
        return Success(false);
      }
      if NameTaken(ingredients, name) {
        return Failure(ServerError);
      }
      var row := Ingredient(nextIngredientId, name, unit);
      NameFree(ingredients, name);
      AppendIngredientOk(ingredients, row, nextIngredientId);
      ingredients := ingredients + [row];
      nextIngredientId := nextIngredientId + 1;
      r := Success(true);
    }

    /** The favorites table after a registry request: rows are only ever added when absent. */
    method SetFavorites(rows: seq<Pair>)
      requires Valid() && NoDuplicates(rows)
      modifies this
      ensures Valid()
      ensures favorites == rows
      ensures users == old(users) && tags == old(tags) && ingredients == old(ingredients)
      ensures nextIngredientId == old(nextIngredientId) && recipes == old(recipes) && nextRecipeId == old(nextRecipeId)
      ensures recipeTags == old(recipeTags) && lines == old(lines)
      ensures carts == old(carts) && subscriptions == old(subscriptions)
    {
      favorites := rows;
    }

    method SetCarts(rows: seq<Pair>)
      requires Valid() && NoDuplicates(rows)
      modifies this
      ensures Valid()
      ensures carts == rows
      ensures users == old(users) && tags == old(tags) && ingredients == old(ingredients)
      ensures nextIngredientId == old(nextIngredientId) && recipes == old(recipes) && nextRecipeId == old(nextRecipeId)
      ensures recipeTags == old(recipeTags) && lines == old(lines)
      ensures favorites == old(favorites) && subscriptions == old(subscriptions)
    {
      carts := rows;
    }

    method SetSubscriptions(rows: seq<Pair>)
      requires Valid() && NoDuplicates(rows) && NoSelfPairs(rows)
      modifies this
      ensures Valid()
      ensures subscriptions == rows
      ensures users == old(users) && tags == old(tags) && ingredients == old(ingredients)
      ensures nextIngredientId == old(nextIngredientId) && recipes == old(recipes) && nextRecipeId == old(nextRecipeId)
      ensures recipeTags == old(recipeTags) && lines == old(lines)
      ensures favorites == old(favorites) && carts == old(carts)
    {
      subscriptions := rows;
    }

    /** `recipe.tags.set(ids)`: the recipe's tag set becomes exactly `ids`. */
    method SetTags(recipeId: int, ids: set<int>)
      requires Valid()
      requires recipeId in RecipeIds(recipes) && ids <= TagIds(tags)
      modifies this
      ensures Valid()
      ensures recipeTags == old(recipeTags)[recipeId := ids]
      ensures users == old(users) && tags == old(tags) && ingredients == old(ingredients)
      ensures nextIngredientId == old(nextIngredientId) && recipes == old(recipes) && nextRecipeId == old(nextRecipeId)
      ensures lines == old(lines)
      ensures favorites == old(favorites) && carts == old(carts) && subscriptions == old(subscriptions)
    {
      recipeTags := recipeTags[recipeId := ids];
    }

    /** `recipe.ingredients.clear()`: every line of the recipe is deleted. */
    method ClearLines(recipeId: int)
      requires Valid()
      modifies this
      ensures Valid()
      ensures lines == DropLines(old(lines), recipeId)
      ensures forall i :: 0 <= i < |lines| ==> lines[i].recipe != recipeId
      ensures users == old(users) && tags == old(tags) && ingredients == old(ingredients)
      ensures nextIngredientId == old(nextIngredientId) && recipes == old(recipes) && nextRecipeId == old(nextRecipeId)
      ensures recipeTags == old(recipeTags)
      ensures favorites == old(favorites) && carts == old(carts) && subscriptions == old(subscriptions)
    {
      DropLinesOk(lines, recipeId, RecipeIds(recipes), IngredientIds(ingredients));
      lines := DropLines(lines, recipeId);
    }

    /** `IngredientRecipe.objects.bulk_create(rows)`: the rows are appended; the unique and foreign keys must hold. */
    method BulkCreateLines(added: seq<IngredientLine>)
      requires Valid()
      requires LinesOk(lines + added, RecipeIds(recipes), IngredientIds(ingredients))
      modifies this
      ensures Valid()
      ensures lines == old(lines) + added
      ensures users == old(users) && tags == old(tags) && ingredients == old(ingredients)
      ensures nextIngredientId == old(nextIngredientId) && recipes == old(recipes) && nextRecipeId == old(nextRecipeId)
      ensures recipeTags == old(recipeTags)
      ensures favorites == old(favorites) && carts == old(carts) && subscriptions == old(subscriptions)
    {
      lines := lines + added;
    }

    /**
     * `Recipe.save`: a recipe without a short code first receives a fresh
     * one; a recipe that has one keeps it. A new recipe is then inserted
     * (newest first, with an empty tag set); an existing one overwrites its
     * row.
     */
    method Save(r: Recipe, adding: bool, tokens: seq<string>) returns (res: Result<Recipe, ApiError>)
      requires Valid()
      requires r.cookingTime >= 1 && r.author in users
      requires adding && r.shortUrl != "" ==> r.shortUrl !in ShortUrls(recipes) && |r.shortUrl| <= shortUrlLen
      requires !adding ==> exists i :: 0 <= i < |recipes| && recipes[i].id == r.id && recipes[i].shortUrl == r.shortUrl
      requires forall t :: t in tokens ==> TokenShaped(t, shortUrlLen)
      modifies this
      ensures Valid()
      ensures users == old(users) && tags == old(tags) && ingredients == old(ingredients)
      ensures nextIngredientId == old(nextIngredientId) && lines == old(lines)
      ensures favorites == old(favorites) && carts == old(carts) && subscriptions == old(subscriptions)
      ensures res.Failure? ==> res.error == CodeSpaceExhausted && unchanged(this)
      ensures res.Failure? <==> r.shortUrl == "" && CodesExhausted(ShortUrls(old(recipes)), tokens, shortUrlLen)
      ensures res.Success? && r.shortUrl != "" ==> res.value.shortUrl == r.shortUrl
      ensures res.Success? && r.shortUrl == "" ==> res.value.shortUrl !in ShortUrls(old(recipes)) && |res.value.shortUrl| == shortUrlLen
      ensures res.Success? ==> res.value == r.(id := res.value.id, shortUrl := res.value.shortUrl)
      ensures res.Success? && adding ==>
        res.value.id == old(nextRecipeId) && nextRecipeId == old(nextRecipeId) + 1
        && recipes == [res.value] + old(recipes) && recipeTags == old(recipeTags)[res.value.id := {}]
        && RecipeIds(recipes) == RecipeIds(old(recipes)) + {res.value.id}
      ensures !adding ==>
        res == Success(r) && nextRecipeId == old(nextRecipeId) && recipeTags == old(recipeTags)
        && recipes == ReplaceRow(old(recipes), r)
    {
      var saved := r;
      if r.shortUrl == "" {
        var code := GenerateShortCode(ShortUrls(recipes), tokens, shortUrlLen);
        if code.None? {
          return Failure(CodeSpaceExhausted);
        }
        saved := saved.(shortUrl := code.value);
      }
      if adding {
        saved := saved.(id := nextRecipeId);
        InsertRow(saved);
      } else {
        UpdateRow(saved);
      }
      res := Success(saved);
    }
    /** The INSERT a first save issues: the row goes first (newest) with an empty tag set. */
    method InsertRow(row: Recipe)
      requires Valid()
      requires row.id == nextRecipeId && row.author in users && row.cookingTime >= 1
      requires row.shortUrl != "" && |row.shortUrl| <= shortUrlLen && row.shortUrl !in ShortUrls(recipes)
      modifies this
      ensures Valid()
      ensures recipes == [row] + old(recipes) && recipeTags == old(recipeTags)[row.id := {}]
      ensures RecipeIds(recipes) == RecipeIds(old(recipes)) + {row.id}
      ensures nextRecipeId == old(nextRecipeId) + 1
      ensures users == old(users) && tags == old(tags) && ingredients == old(ingredients)
      ensures nextIngredientId == old(nextIngredientId) && lines == old(lines)
      ensures favorites == old(favorites) && carts == old(carts) && subscriptions == old(subscriptions)
    {
      InsertKeepsRecipesOk(recipes, row, nextRecipeId, users, shortUrlLen);
      recipes := [row] + recipes;
      recipeTags := recipeTags[row.id := {}];
      nextRecipeId := nextRecipeId + 1;
    }

    /** The UPDATE a later save issues: the row with the same id is overwritten. */
    method UpdateRow(row: Recipe)
      requires Valid()
      requires row.author in users && row.cookingTime >= 1
      requires exists i :: 0 <= i < |recipes| && recipes[i].id == row.id && recipes[i].shortUrl == row.shortUrl
      modifies this
      ensures Valid()
      ensures recipes == ReplaceRow(old(recipes), row)
      ensures nextRecipeId == old(nextRecipeId) && recipeTags == old(recipeTags)
      ensures users == old(users) && tags == old(tags) && ingredients == old(ingredients)
      ensures nextIngredientId == old(nextIngredientId) && lines == old(lines)
      ensures favorites == old(favorites) && carts == old(carts) && subscriptions == old(subscriptions)
    {
      ReplaceKeepsRecipesOk(recipes, row, nextRecipeId, users, shortUrlLen);
      recipes := ReplaceRow(recipes, row);
    }
  }

  function ReplaceRow(recipes: seq<Recipe>, r: Recipe): (s: seq<Recipe>) {
    seq(|recipes|, i requires 0 <= i < |recipes| => if recipes[i].id == r.id then r else recipes[i])
  }

  lemma InsertKeepsRecipesOk(recipes: seq<Recipe>, r: Recipe, nextId: int, users: set<int>, codeLen: nat)
    requires RecipesOk(recipes, nextId, users, codeLen)
    requires r.id == nextId && r.id >= 0 && r.author in users && r.cookingTime >= 1
    requires r.shortUrl != "" && |r.shortUrl| <= codeLen && r.shortUrl !in ShortUrls(recipes)
    ensures RecipesOk([r] + recipes, nextId + 1, users, codeLen)
    ensures RecipeIds([r] + recipes) == RecipeIds(recipes) + {r.id}
    ensures ShortUrls([r] + recipes) == ShortUrls(recipes) + {r.shortUrl}
  {
    var s := [r] + recipes;
    forall i | 0 <= i < |s| ensures RecipeRowOk(s[i], nextId + 1, users, codeLen) {
      if i > 0 { assert s[i] == recipes[i - 1]; }
    }
    forall i, j | 0 <= i < j < |s| ensures s[i].id != s[j].id && s[i].shortUrl != s[j].shortUrl {
      if i == 0 {
        assert s[j] == recipes[j - 1] && s[j] in recipes;
      } else {
        assert s[i] == recipes[i - 1] && s[j] == recipes[j - 1];
      }
    }
  }

  lemma ReplaceKeepsRecipesOk(recipes: seq<Recipe>, r: Recipe, nextId: int, users: set<int>, codeLen: nat)
    requires RecipesOk(recipes, nextId, users, codeLen)
    requires exists i :: 0 <= i < |recipes| && recipes[i].id == r.id && recipes[i].shortUrl == r.shortUrl
    requires r.author in users && r.cookingTime >= 1
    ensures RecipesOk(ReplaceRow(recipes, r), nextId, users, codeLen)
    ensures RecipeIds(ReplaceRow(recipes, r)) == RecipeIds(recipes)
    ensures ShortUrls(ReplaceRow(recipes, r)) == ShortUrls(recipes)
  {
    var k :| 0 <= k < |recipes| && recipes[k].id == r.id && recipes[k].shortUrl == r.shortUrl;
    var s := ReplaceRow(recipes, r);
    forall i | 0 <= i < |s| ensures s[i].id == recipes[i].id && s[i].shortUrl == recipes[i].shortUrl {
      if i < k {
        assert recipes[i].id != recipes[k].id;
      } else if i > k {
        assert recipes[k].id != recipes[i].id;
      }
    }
    assert forall i :: 0 <= i < |s| ==> RecipeRowOk(s[i], nextId, users, codeLen) by {
      forall i | 0 <= i < |s| ensures RecipeRowOk(s[i], nextId, users, codeLen) {
        assert RecipeRowOk(recipes[i], nextId, users, codeLen);
      }
    }
    forall x | x in RecipeIds(recipes) ensures x in RecipeIds(s) {
      var m :| m in recipes && m.id == x;
      var i :| 0 <= i < |recipes| && recipes[i] == m;
      assert s[i] in s;
    }
    forall x | x in ShortUrls(recipes) ensures x in ShortUrls(s) {
      var m :| m in recipes && m.shortUrl == x;
      var i :| 0 <= i < |recipes| && recipes[i] == m;
      assert s[i] in s;
    }
  }

  /** `short_url_redirect`: the recipe a code belongs to, or NotFound. */
  function FindByShortUrl(recipes: seq<Recipe>, code: string): (r: Option<Recipe>)
    ensures r.Some? ==> r.value in recipes && r.value.shortUrl == code
    ensures r.None? ==> code !in ShortUrls(recipes)
  {
    if recipes == [] then None
    else if recipes[0].shortUrl == code then Some(recipes[0])
    else
      assert recipes == [recipes[0]] + recipes[1..];
      FindByShortUrl(recipes[1..], code)
  }

  /** With unique codes, looking up a recipe's own code finds that recipe. */
  lemma {:induction false} FindByShortUrlFindsOwner(recipes: seq<Recipe>, k: int)
    requires 0 <= k < |recipes|
    requires forall i, j :: 0 <= i < j < |recipes| ==> recipes[i].shortUrl != recipes[j].shortUrl
    ensures FindByShortUrl(recipes, recipes[k].shortUrl) == Some(recipes[k])
  {
    if k > 0 {
      assert recipes[0].shortUrl != recipes[k].shortUrl;
      FindByShortUrlFindsOwner(recipes[1..], k - 1);
    }
  }

  /** A code no recipe holds is not found. */
  lemma {:induction false} FindByShortUrlMissing(recipes: seq<Recipe>, code: string)
    requires code !in ShortUrls(recipes)
    ensures FindByShortUrl(recipes, code) == None
  {
    if recipes != [] {
      assert recipes[0] in recipes;
      assert ShortUrls(recipes[1..]) <= ShortUrls(recipes) by {
        forall x | x in ShortUrls(recipes[1..]) ensures x in ShortUrls(recipes) {
          var m :| m in recipes[1..] && m.shortUrl == x;
          assert m in recipes;
        }
      }
      FindByShortUrlMissing(recipes[1..], code);
    }
  }
}
