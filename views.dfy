/**
 * The endpoints of backend/foodgram/views.py that carry logic: the
 * subscription, favorite and shopping-cart registries, the shopping-list
 * download, the ingredient search, the short-link redirect, and the recipe
 * write endpoints with their permission and validation order.
 */
module Views {
  import opened Wrappers
  import opened Text
  import opened Models
  import opened Permissions
  import opened Serializers

  // ---------------------------------------------------------------------
  // Membership registries (subscribe, favorite, shopping_cart).
  // ---------------------------------------------------------------------

  /** The two methods a registry action accepts: POST adds the pair, DELETE removes it. */
  datatype Verb = Add | Remove

  /** What a registry request answers and the table it leaves behind. */
  datatype Change = Change(outcome: Outcome<Reason>, rows: seq<Pair>)

  /** The table after `filter(...).delete()`: every row equal to `p` is gone. */
  function Without(rows: seq<Pair>, p: Pair): seq<Pair> {
    if rows == [] then []
    else (if rows[0] == p then [] else [rows[0]]) + Without(rows[1..], p)
  }

  /** Add refuses a present pair, remove refuses an absent one; otherwise the table changes. */
  function Toggle(rows: seq<Pair>, p: Pair, verb: Verb): Change {
    match verb
    case Add => if p in rows then Change(Fail(AlreadyPresent), rows) else Change(Pass, rows + [p])
    case Remove => if p in rows then Change(Pass, Without(rows, p)) else Change(Fail(NotPresent), rows)
  }

  /** `subscribe`: following yourself is refused before the table is looked at. */
  function SubscriptionChange(rows: seq<Pair>, p: Pair, verb: Verb): Change {
    if verb == Add && p.0 == p.1 then Change(Fail(SelfSubscription), rows) else Toggle(rows, p, verb)
  }

  lemma {:induction false} WithoutMembers(rows: seq<Pair>, p: Pair)
    ensures forall q :: q in Without(rows, p) <==> q in rows && q != p
  {
    if rows != [] {
      WithoutMembers(rows[1..], p);
      assert rows == [rows[0]] + rows[1..];
    }
  }

  lemma {:induction false} WithoutKeepsNoDuplicates(rows: seq<Pair>, p: Pair)
    requires NoDuplicates(rows)
    ensures NoDuplicates(Without(rows, p))
  {
    if rows != [] {
      var tail := rows[1..];
      assert NoDuplicates(tail) by {
        forall i, j | 0 <= i < j < |tail| ensures tail[i] != tail[j] {
          assert tail[i] == rows[i + 1] && tail[j] == rows[j + 1];
        }
      }
      WithoutKeepsNoDuplicates(tail, p);
      WithoutMembers(tail, p);
      var rest := Without(tail, p);
      if rows[0] != p {
        var kept := [rows[0]] + rest;
        forall m | 0 <= m < |tail| ensures tail[m] != rows[0] {
          assert tail[m] == rows[m + 1];
        }
        assert rows[0] !in rest;
        forall i, j | 0 <= i < j < |kept| ensures kept[i] != kept[j] {
          assert kept[j] == rest[j - 1] && kept[j] in rest;
          if i > 0 { assert kept[i] == rest[i - 1]; }
        }
      }
    }
  }

  lemma {:induction false} WithoutKeepsNoSelfPairs(rows: seq<Pair>, p: Pair)
    requires NoSelfPairs(rows)
    ensures NoSelfPairs(Without(rows, p))
  {
    if rows != [] {
      var tail := rows[1..];
      assert NoSelfPairs(tail) by {
        forall i | 0 <= i < |tail| ensures tail[i].0 != tail[i].1 { assert tail[i] == rows[i + 1]; }
      }
      WithoutKeepsNoSelfPairs(tail, p);
    }
  }

  /**
   * A registry request succeeds exactly when adding an absent pair or
   * removing a present one; success leaves `p` present after an add and
   * absent after a remove; no other pair is ever touched, and a refused
   * request leaves the table as it was.
   */
  lemma ToggleEffect(rows: seq<Pair>, p: Pair, verb: Verb)
    ensures Toggle(rows, p, verb).outcome.Pass? <==> (verb == Add <==> p !in rows)
    ensures Toggle(rows, p, verb).outcome.Pass? ==> (p in Toggle(rows, p, verb).rows <==> verb == Add)
    ensures Toggle(rows, p, verb).outcome.Fail? ==> Toggle(rows, p, verb).rows == rows
    ensures forall q :: q != p ==> (q in Toggle(rows, p, verb).rows <==> q in rows)
  {
    WithoutMembers(rows, p);
  }

  /** Only the registry endpoints add rows, and they never create a repeated pair. */
  lemma ToggleKeepsNoDuplicates(rows: seq<Pair>, p: Pair, verb: Verb)
    requires NoDuplicates(rows)
    ensures NoDuplicates(Toggle(rows, p, verb).rows)
  {
    if verb == Remove {
      WithoutKeepsNoDuplicates(rows, p);
    } else if p !in rows {
      var next := rows + [p];
      forall i, j | 0 <= i < j < |next| ensures next[i] != next[j] {
        if j == |rows| { assert next[i] == rows[i]; }
      }
    }
  }

  /** Adding twice: the first add succeeds, the second is refused. */
  lemma AddTwice(rows: seq<Pair>, p: Pair)
    requires p !in rows
    ensures Toggle(rows, p, Add).outcome == Pass
    ensures Toggle(Toggle(rows, p, Add).rows, p, Add).outcome == Fail(AlreadyPresent)
  {
    assert (rows + [p])[|rows|] == p;
  }

  /** Remove, add, remove each succeed on a pair that is present. */
  lemma RemoveAddRemove(rows: seq<Pair>, p: Pair)
    requires p in rows
    ensures var c1 := Toggle(rows, p, Remove);
      var c2 := Toggle(c1.rows, p, Add);
      var c3 := Toggle(c2.rows, p, Remove);
      c1.outcome == Pass && c2.outcome == Pass && c3.outcome == Pass
  {
    WithoutMembers(rows, p);
    var c2rows := Without(rows, p) + [p];
    assert c2rows[|c2rows| - 1] == p;
  }

  /** Following yourself is refused whatever the table holds, and nothing changes. */
  lemma SelfSubscriptionRefused(rows: seq<Pair>, user: int)
    ensures SubscriptionChange(rows, (user, user), Add) == Change(Fail(SelfSubscription), rows)
  {
  }

  /** No subscription request makes a user follow themself. */
  lemma SubscriptionKeepsInvariants(rows: seq<Pair>, p: Pair, verb: Verb)
    requires NoDuplicates(rows) && NoSelfPairs(rows)
    ensures NoDuplicates(SubscriptionChange(rows, p, verb).rows)
    ensures NoSelfPairs(SubscriptionChange(rows, p, verb).rows)
  {
    ToggleKeepsNoDuplicates(rows, p, verb);
    if verb == Remove {
      WithoutKeepsNoSelfPairs(rows, p);
    } else if p.0 != p.1 && p !in rows {
      var next := rows + [p];
      forall i | 0 <= i < |next| ensures next[i].0 != next[i].1 {
        if i < |rows| { assert next[i] == rows[i]; }
      }
    }
  }

  function Lift(o: Outcome<Reason>): Outcome<ApiError> {
    match o
    case Pass => Pass
    case Fail(reason) => Fail(BadRequest(reason))
  }

  /**
   * `UserViewSet.subscribe`: authentication first, then the author must
   * exist, then the self/duplicate/absent checks of `SubscriptionChange`.
   */
  method Subscribe(db: Database, caller: Identity, authorId: int, verb: Verb) returns (r: Outcome<ApiError>)
    requires db.Valid()
    modifies db
    ensures db.Valid()
    ensures r.Fail? ==> unchanged(db)
    ensures caller.Anonymous? ==> r == Fail(NotAuthenticated)
    ensures caller.User? && authorId !in old(db.users) ==> r == Fail(NotFound)
    ensures caller.User? && authorId in old(db.users) ==>
      var c := SubscriptionChange(old(db.subscriptions), (caller.id, authorId), verb);
      db.subscriptions == c.rows && r == Lift(c.outcome)
    ensures db.State() == old(db.State()).(subscriptions := db.subscriptions)
  {
    if caller.Anonymous? {
      return Fail(NotAuthenticated);
    }
    if authorId !in db.users {
      return Fail(NotFound);
    }
    var c := SubscriptionChange(db.subscriptions, (caller.id, authorId), verb);
    r := Lift(c.outcome);
    if c.outcome.Pass? {
      SubscriptionKeepsInvariants(db.subscriptions, (caller.id, authorId), verb);
      db.SetSubscriptions(c.rows);
    }
  }

  function FindRecipe(recipes: seq<Recipe>, id: int): (r: Option<Recipe>)
    ensures r.Some? <==> id in RecipeIds(recipes)
    ensures r.Some? ==> r.value in recipes && r.value.id == id
  {
    if recipes == [] then None
    else if recipes[0].id == id then Some(recipes[0])
    else
      assert recipes == [recipes[0]] + recipes[1..];
      FindRecipe(recipes[1..], id)
  }

  /** What an add answers with (the recipe in short form); a remove answers with no body. */
  function MarkResponse(recipe: Recipe, verb: Verb, c: Change): (r: Result<Option<ShortRecipe>, ApiError>)
    ensures r.Failure? <==> c.outcome.Fail?
    ensures r.Failure? ==> r.error == BadRequest(c.outcome.error)
    ensures r.Success? ==> (r.value.Some? <==> verb == Add) && (r.value.Some? ==> r.value.value == Short(recipe))
  {
    if c.outcome.Fail? then Failure(BadRequest(c.outcome.error))
    else if verb == Add then Success(Some(Short(recipe)))
    else Success(None)
  }

  /** `RecipeViewSet.favorite`: the recipe must exist, then the add/remove rule on the favorites table. */
  method Favorite(db: Database, caller: Identity, recipeId: int, verb: Verb)
    returns (r: Result<Option<ShortRecipe>, ApiError>)
    requires db.Valid()
    modifies db
    ensures db.Valid()
    ensures r.Failure? ==> unchanged(db)
    ensures caller.Anonymous? ==> r == Failure(NotAuthenticated)
    ensures caller.User? && recipeId !in RecipeIds(old(db.recipes)) ==> r == Failure(NotFound)
    ensures caller.User? && recipeId in RecipeIds(old(db.recipes)) ==>
      var c := Toggle(old(db.favorites), (caller.id, recipeId), verb);
      db.favorites == c.rows && r == MarkResponse(FindRecipe(old(db.recipes), recipeId).value, verb, c)
    ensures db.State() == old(db.State()).(favorites := db.favorites)
  {
    if caller.Anonymous? {
      return Failure(NotAuthenticated);
    }
    var found := FindRecipe(db.recipes, recipeId);
    if found.None? {
      return Failure(NotFound);
    }
    var c := Toggle(db.favorites, (caller.id, recipeId), verb);
    r := MarkResponse(found.value, verb, c);
    if c.outcome.Pass? {
      ToggleKeepsNoDuplicates(db.favorites, (caller.id, recipeId), verb);
      db.SetFavorites(c.rows);
    }
  }

  /** `RecipeViewSet.shopping_cart`: the same rule on the shopping-cart table. */
  method ShoppingCart(db: Database, caller: Identity, recipeId: int, verb: Verb)
    returns (r: Result<Option<ShortRecipe>, ApiError>)
    requires db.Valid()
    modifies db
    ensures db.Valid()
    ensures r.Failure? ==> unchanged(db)
    ensures caller.Anonymous? ==> r == Failure(NotAuthenticated)
    ensures caller.User? && recipeId !in RecipeIds(old(db.recipes)) ==> r == Failure(NotFound)
    ensures caller.User? && recipeId in RecipeIds(old(db.recipes)) ==>
      var c := Toggle(old(db.carts), (caller.id, recipeId), verb);
      db.carts == c.rows && r == MarkResponse(FindRecipe(old(db.recipes), recipeId).value, verb, c)
    ensures db.State() == old(db.State()).(carts := db.carts)
  {
    if caller.Anonymous? {
      return Failure(NotAuthenticated);
    }
    var found := FindRecipe(db.recipes, recipeId);
    if found.None? {
      return Failure(NotFound);
    }
    var c := Toggle(db.carts, (caller.id, recipeId), verb);
    r := MarkResponse(found.value, verb, c);
    if c.outcome.Pass? {
      ToggleKeepsNoDuplicates(db.carts, (caller.id, recipeId), verb);
      db.SetCarts(c.rows);
    }
  }

  // ---------------------------------------------------------------------
  // download_shopping_cart
  // ---------------------------------------------------------------------

  /** One row of the aggregated query: an ingredient with its summed amount. */
  datatype Entry = Entry(name: string, total: nat, unit: string)

  /**
   * `Sum('ingredientrecipe__amount')` for one ingredient over the join of
   * the lines with the user's cart rows: a line counts once per cart row
   * that holds its recipe.
   */
  function CartTotal(lines: seq<IngredientLine>, carts: seq<Pair>, user: int, ingredientId: int): nat {
    if lines == [] then 0
    else
      (if lines[0].ingredient == ingredientId then lines[0].amount * Count(carts, (user, lines[0].recipe)) else 0)
      + CartTotal(lines[1..], carts, user, ingredientId)
  }

  /** The total read plainly: the amounts of the lines of every carted recipe. */
  function PlainTotal(lines: seq<IngredientLine>, carts: seq<Pair>, user: int, ingredientId: int): nat {
    if lines == [] then 0
    else
      (if lines[0].ingredient == ingredientId && (user, lines[0].recipe) in carts then lines[0].amount else 0)
      + PlainTotal(lines[1..], carts, user, ingredientId)
  }

  /** Some recipe in the user's cart uses the ingredient: the join yields a group for it. */
  predicate InCart(lines: seq<IngredientLine>, carts: seq<Pair>, user: int, ingredientId: int) {
    exists k :: 0 <= k < |lines| && lines[k].ingredient == ingredientId && (user, lines[k].recipe) in carts
  }

  /** The catalog rows the query groups by, in catalog order. */
  function Carted(catalog: seq<Ingredient>, lines: seq<IngredientLine>, carts: seq<Pair>, user: int): seq<Ingredient> {
    if catalog == [] then []
    else (if InCart(lines, carts, user, catalog[0].id) then [catalog[0]] else [])
         + Carted(catalog[1..], lines, carts, user)
  }

  lemma {:induction false} CartedMembers(catalog: seq<Ingredient>, lines: seq<IngredientLine>, carts: seq<Pair>, user: int)
    ensures forall i :: i in Carted(catalog, lines, carts, user) <==> i in catalog && InCart(lines, carts, user, i.id)
  {
    if catalog != [] {
      CartedMembers(catalog[1..], lines, carts, user);
      assert catalog == [catalog[0]] + catalog[1..];
    }
  }

  lemma {:induction false} CartedUniqueNames(catalog: seq<Ingredient>, lines: seq<IngredientLine>, carts: seq<Pair>, user: int)
    requires UniqueNames(catalog)
    ensures UniqueNames(Carted(catalog, lines, carts, user))
  {
    if catalog != [] {
      var tail := catalog[1..];
      assert UniqueNames(tail) by {
        forall i, j | 0 <= i < j < |tail| ensures tail[i].name != tail[j].name {
          assert tail[i] == catalog[i + 1] && tail[j] == catalog[j + 1];
        }
      }
      CartedUniqueNames(tail, lines, carts, user);
      CartedMembers(tail, lines, carts, user);
      var rest := Carted(tail, lines, carts, user);
      if InCart(lines, carts, user, catalog[0].id) {
        var kept := [catalog[0]] + rest;
        forall j | 0 <= j < |rest| ensures rest[j].name != catalog[0].name {
          assert rest[j] in rest;
          var m :| 0 <= m < |tail| && tail[m] == rest[j];
          assert catalog[m + 1] == rest[j];
        }
        forall i, j | 0 <= i < j < |kept| ensures kept[i].name != kept[j].name {
          assert kept[j] == rest[j - 1];
          if i > 0 { assert kept[i] == rest[i - 1]; }
        }
      }
    }
  }

  /**
   * The query of `download_shopping_cart`: one entry per catalog ingredient
   * used by a carted recipe, with its total, ordered by name.
   */
  function ShoppingList(catalog: seq<Ingredient>, lines: seq<IngredientLine>, carts: seq<Pair>, user: int): (r: seq<Entry>)
    ensures forall k :: 0 <= k < |r| ==> FromCartedRow(catalog, lines, carts, user, r[k])
  {
    var picked := OrderByName(Carted(catalog, lines, carts, user));
    PickedRows(catalog, lines, carts, user);
    seq(|picked|, k requires 0 <= k < |picked| =>
      Entry(picked[k].name, CartTotal(lines, carts, user, picked[k].id), picked[k].unit))
  }

  /** Each row the list is built from yields the entry of a carted catalog row. */
  lemma PickedRows(catalog: seq<Ingredient>, lines: seq<IngredientLine>, carts: seq<Pair>, user: int)
    ensures forall k :: 0 <= k < |OrderByName(Carted(catalog, lines, carts, user))| ==>
      var x := OrderByName(Carted(catalog, lines, carts, user))[k];
      FromCartedRow(catalog, lines, carts, user, Entry(x.name, CartTotal(lines, carts, user, x.id), x.unit))
  {
    var picked := OrderByName(Carted(catalog, lines, carts, user));
    PickedMembers(catalog, lines, carts, user);
    forall k | 0 <= k < |picked|
      ensures FromCartedRow(catalog, lines, carts, user, Entry(picked[k].name, CartTotal(lines, carts, user, picked[k].id), picked[k].unit))
    {
      var i := picked[k];
      assert i in picked;
      assert i in catalog && InCart(lines, carts, user, i.id);
    }
  }

  /** The rows the list is built from are exactly the carted catalog rows. */
  lemma PickedMembers(catalog: seq<Ingredient>, lines: seq<IngredientLine>, carts: seq<Pair>, user: int)
    ensures forall x :: x in OrderByName(Carted(catalog, lines, carts, user)) <==> x in catalog && InCart(lines, carts, user, x.id)
  {
    var carted := Carted(catalog, lines, carts, user);
    var picked := OrderByName(carted);
    CartedMembers(catalog, lines, carts, user);
    forall x ensures x in picked <==> x in carted {
      assert x in picked <==> x in multiset(picked);
      assert x in carted <==> x in multiset(carted);
    }
  }

  /** The entries are in strictly increasing name order. */
  lemma ShoppingListOrdered(catalog: seq<Ingredient>, lines: seq<IngredientLine>, carts: seq<Pair>, user: int)
    requires UniqueNames(catalog)
    ensures var r := ShoppingList(catalog, lines, carts, user);
      forall j, k :: 0 <= j < k < |r| ==> LexLe(r[j].name, r[k].name) && r[j].name != r[k].name
  {
    var carted := Carted(catalog, lines, carts, user);
    CartedUniqueNames(catalog, lines, carts, user);
    OrderByNameStrict(carted);
  }

  /** Every carted catalog row has its entry, with its name, total and unit. */
  lemma ShoppingListComplete(catalog: seq<Ingredient>, lines: seq<IngredientLine>, carts: seq<Pair>, user: int)
    ensures var r := ShoppingList(catalog, lines, carts, user);
      forall i :: i in catalog && InCart(lines, carts, user, i.id) ==>
        Entry(i.name, CartTotal(lines, carts, user, i.id), i.unit) in r
  {
    var picked := OrderByName(Carted(catalog, lines, carts, user));
    var r := ShoppingList(catalog, lines, carts, user);
    PickedMembers(catalog, lines, carts, user);
    forall i | i in catalog && InCart(lines, carts, user, i.id)
      ensures Entry(i.name, CartTotal(lines, carts, user, i.id), i.unit) in r
    {
      var k :| 0 <= k < |picked| && picked[k] == i;
      assert r[k] == Entry(i.name, CartTotal(lines, carts, user, i.id), i.unit);
    }
  }

  /** `e` is the entry of some carted catalog row: its name, total and unit. */
  predicate FromCartedRow(catalog: seq<Ingredient>, lines: seq<IngredientLine>, carts: seq<Pair>, user: int, e: Entry) {
    exists i :: i in catalog && InCart(lines, carts, user, i.id)
                && e == Entry(i.name, CartTotal(lines, carts, user, i.id), i.unit)
  }

  /**
   * The shopping list has exactly one entry per carted ingredient row,
   * carrying that ingredient's name, unit and total, and the entries are in
   * strictly increasing name order.
   */
  lemma ShoppingListContents(catalog: seq<Ingredient>, lines: seq<IngredientLine>, carts: seq<Pair>, user: int)
    requires UniqueNames(catalog)
    ensures var r := ShoppingList(catalog, lines, carts, user);
      && (forall j, k :: 0 <= j < k < |r| ==> LexLe(r[j].name, r[k].name) && r[j].name != r[k].name)
      && (forall i :: i in catalog && InCart(lines, carts, user, i.id) ==>
            Entry(i.name, CartTotal(lines, carts, user, i.id), i.unit) in r)
      && (forall k :: 0 <= k < |r| ==> FromCartedRow(catalog, lines, carts, user, r[k]))
  {
    ShoppingListOrdered(catalog, lines, carts, user);
    ShoppingListComplete(catalog, lines, carts, user);
  }

  /** While the cart table has no repeated pair, every carted line counts exactly once. */
  lemma {:induction false} CartTotalWithoutDuplicates(lines: seq<IngredientLine>, carts: seq<Pair>, user: int, ingredientId: int)
    requires NoDuplicates(carts)
    ensures CartTotal(lines, carts, user, ingredientId) == PlainTotal(lines, carts, user, ingredientId)
  {
    if lines != [] {
      CartTotalWithoutDuplicates(lines[1..], carts, user, ingredientId);
      CountWithoutDuplicates(carts, (user, lines[0].recipe));
    }
  }

  const Header: string := "Список покупок:\n\n"

  /** `f'{name} - {total} {unit}\n'`. */
  function EntryLine(e: Entry): string {
    e.name + " - " + NatToString(e.total) + " " + e.unit + "\n"
  }

  /** The entry lines, in order, one after another. */
  function RenderLines(entries: seq<Entry>): string {
    if entries == [] then "" else RenderLines(entries[..|entries| - 1]) + EntryLine(entries[|entries| - 1])
  }

  /** The `shop_list += ...` loop. */
  method RenderShopList(entries: seq<Entry>) returns (text: string)
    ensures text == Header + RenderLines(entries)
  {
    text := Header;
    var i := 0;
    while i < |entries|
      invariant 0 <= i <= |entries|
      invariant text == Header + RenderLines(entries[..i])
    {
      assert entries[..i + 1][..i] == entries[..i];
      text := text + EntryLine(entries[i]);
      i := i + 1;
    }
    assert entries[..i] == entries;
  }

  lemma {:induction false} RenderLinesAppend(a: seq<Entry>, b: seq<Entry>)
    ensures RenderLines(a + b) == RenderLines(a) + RenderLines(b)
    decreases |b|
  {
    if b == [] {
      assert a + b == a;
    } else {
      var init := b[..|b| - 1];
      var last := b[|b| - 1];
      var ab := a + b;
      assert ab[..|ab| - 1] == a + init;
      assert ab[|ab| - 1] == last;
      RenderLinesAppend(a, init);
      calc {
        RenderLines(ab);
        RenderLines(a + init) + EntryLine(last);
        (RenderLines(a) + RenderLines(init)) + EntryLine(last);
        RenderLines(a) + (RenderLines(init) + EntryLine(last));
      }
    }
  }

  /** How many line breaks a text holds. */
  function LineBreaks(s: string): nat {
    if s == [] then 0 else (if s[0] == '\n' then 1 else 0) + LineBreaks(s[1..])
  }

  lemma {:induction false} LineBreaksAppend(a: string, b: string)
    ensures LineBreaks(a + b) == LineBreaks(a) + LineBreaks(b)
  {
    if a != [] {
      assert (a + b)[0] == a[0] && (a + b)[1..] == a[1..] + b;
      LineBreaksAppend(a[1..], b);
    } else {
      assert a + b == b;
    }
  }

  lemma {:induction false} NoLineBreaks(s: string)
    requires forall i :: 0 <= i < |s| ==> s[i] != '\n'
    ensures LineBreaks(s) == 0
  {
    if s != [] { NoLineBreaks(s[1..]); }
  }

  predicate SingleLine(s: string) {
    forall i :: 0 <= i < |s| ==> s[i] != '\n'
  }

  /** Each entry takes exactly one line of the report when names and units are single-line. */
  lemma {:induction false} OneLinePerEntry(entries: seq<Entry>)
    requires forall k :: 0 <= k < |entries| ==> SingleLine(entries[k].name) && SingleLine(entries[k].unit)
    ensures LineBreaks(RenderLines(entries)) == |entries|
  {
    if entries != [] {
      var init := entries[..|entries| - 1];
      var e := entries[|entries| - 1];
      OneLinePerEntry(init);
      var digits := NatToString(e.total);
      DecimalRoundTrip(e.total);
      assert SingleLine(digits);
      var middle := e.name + " - " + digits + " " + e.unit;
      assert SingleLine(middle) by {
        forall i | 0 <= i < |middle| ensures middle[i] != '\n' {
          if i < |e.name| {
            assert middle[i] == e.name[i];
          } else if i < |e.name| + 3 {
          } else if i < |e.name| + 3 + |digits| {
            assert middle[i] == digits[i - |e.name| - 3];
          } else if i < |e.name| + 4 + |digits| {
          } else {
            assert middle[i] == e.unit[i - |e.name| - 4 - |digits|];
          }
        }
      }
      NoLineBreaks(middle);
      assert EntryLine(e) == middle + "\n";
      LineBreaksAppend(middle, "\n");
      LineBreaksAppend(RenderLines(init), EntryLine(e));
    }
  }

  /** `download_shopping_cart` for an authenticated caller: the header and one line per entry. */
  method DownloadShoppingCart(db: Database, caller: Identity) returns (r: Result<string, ApiError>)
    ensures caller.Anonymous? ==> r == Failure(NotAuthenticated)
    ensures caller.User? ==>
      r == Success(Header + RenderLines(ShoppingList(db.ingredients, db.lines, db.carts, caller.id)))
  {
    if caller.Anonymous? {
      return Failure(NotAuthenticated);
    }
    var entries := ShoppingList(db.ingredients, db.lines, db.carts, caller.id);
    var text := RenderShopList(entries);
    r := Success(text);
  }

  lemma {:induction false} NothingCarted(catalog: seq<Ingredient>, lines: seq<IngredientLine>, carts: seq<Pair>, user: int)
    requires forall i :: 0 <= i < |catalog| ==> !InCart(lines, carts, user, catalog[i].id)
    ensures Carted(catalog, lines, carts, user) == []
  {
    if catalog != [] {
      assert !InCart(lines, carts, user, catalog[0].id);
      NothingCarted(catalog[1..], lines, carts, user);
    }
  }

  /** A user with nothing in the cart downloads the header alone. */
  lemma EmptyCartReport(catalog: seq<Ingredient>, lines: seq<IngredientLine>, carts: seq<Pair>, user: int)
    requires forall k :: 0 <= k < |carts| ==> carts[k].0 != user
    ensures ShoppingList(catalog, lines, carts, user) == []
    ensures Header + RenderLines(ShoppingList(catalog, lines, carts, user)) == Header
  {
    forall i | 0 <= i < |catalog| ensures !InCart(lines, carts, user, catalog[i].id) {
      forall k | 0 <= k < |lines| ensures (user, lines[k].recipe) !in carts {
        forall m | 0 <= m < |carts| ensures carts[m] != (user, lines[k].recipe) {
          assert carts[m].0 != user;
        }
      }
    }
    NothingCarted(catalog, lines, carts, user);
  }

  /** Two carted recipes using 200 g and 300 g of flour give the single line "Flour - 500 g". */
  lemma FlourExample()
    ensures var catalog := [Ingredient(1, "Flour", "g")];
      var lines := [IngredientLine(10, 1, 200), IngredientLine(11, 1, 300)];
      var carts := [(7, 10), (7, 11)];
      Header + RenderLines(ShoppingList(catalog, lines, carts, 7)) == Header + "Flour - 500 g\n"
  {
    var catalog := [Ingredient(1, "Flour", "g")];
    var lines := [IngredientLine(10, 1, 200), IngredientLine(11, 1, 300)];
    var carts := [(7, 10), (7, 11)];
    assert InCart(lines, carts, 7, 1) by { assert lines[0].ingredient == 1 && (7, lines[0].recipe) in carts; }
    assert Carted(catalog, lines, carts, 7) == catalog;
    assert OrderByName(catalog) == catalog;
    assert Count(carts, (7, 10)) == 1;
    assert Count(carts, (7, 11)) == 1;
    assert CartTotal(lines, carts, 7, 1) == 500;
    assert NatToString(500) == "500" by {
      assert NatToString(5) == "5";
      assert NatToString(50) == "50";
    }
    var list := ShoppingList(catalog, lines, carts, 7);
    assert list == [Entry("Flour", 500, "g")];
    assert RenderLines(list) == RenderLines([]) + EntryLine(list[0]);
  }

  // ---------------------------------------------------------------------
  // IngredientViewSet.get_queryset
  // ---------------------------------------------------------------------

  /** An absent or empty `name` parameter selects everything; otherwise a case-insensitive prefix. */
  predicate NameMatches(i: Ingredient, query: Option<string>) {
    query.None? || query.value == "" || StartsWithIgnoringCase(i.name, query.value)
  }

  /** The filtered queryset: the matching rows, each as often as the catalog holds it. */
  function Matching(catalog: seq<Ingredient>, query: Option<string>): (r: seq<Ingredient>)
    ensures forall i :: i in r <==> i in catalog && NameMatches(i, query)
    ensures forall i :: multiset(r)[i] == if NameMatches(i, query) then multiset(catalog)[i] else 0
    ensures (query.None? || query.value == "") ==> r == catalog
  {
    if catalog == [] then []
    else
      assert catalog == [catalog[0]] + catalog[1..];
      (if NameMatches(catalog[0], query) then [catalog[0]] else []) + Matching(catalog[1..], query)
  }

  /** The ingredient search: the matching ingredients, sorted by name. */
  function SearchIngredients(catalog: seq<Ingredient>, query: Option<string>): (r: seq<Ingredient>)
    ensures SortedByName(r)
    ensures multiset(r) == multiset(Matching(catalog, query))
    ensures forall i :: i in r <==> i in catalog && NameMatches(i, query)
    ensures (query.None? || query.value == "") ==> multiset(r) == multiset(catalog)
  {
    var found := Matching(catalog, query);
    var r := OrderByName(found);
    assert forall x :: x in r <==> x in found by {
      forall x ensures x in r <==> x in found {
        assert x in r <==> x in multiset(r);
        assert x in found <==> x in multiset(found);
      }
    }
    r
  }

  // ---------------------------------------------------------------------
  // short_url_redirect
  // ---------------------------------------------------------------------

  /** `short_url_redirect`: the recipe page of the code's owner, or 404. */
  function ShortUrlRedirect(recipes: seq<Recipe>, code: string): (r: Result<string, ApiError>)
    ensures r.Failure? <==> code !in ShortUrls(recipes)
    ensures r.Failure? ==> r.error == NotFound
    ensures r.Success? ==> exists x :: x in recipes && x.shortUrl == code && r.value == "/recipes/" + IntToString(x.id) + "/"
  {
    match FindByShortUrl(recipes, code)
    case None => Failure(NotFound)
    case Some(recipe) => Success("/recipes/" + IntToString(recipe.id) + "/")
  }

  /**
   * Following the short link of any stored recipe leads to that recipe's
   * page, and a code no recipe holds is answered with 404.
   */
  lemma ShortLinkLeadsToRecipe(db: Database, base: string, k: int, unknown: string)
    requires db.Valid() && 0 <= k < |db.recipes|
    requires unknown !in ShortUrls(db.recipes)
    ensures var link := ShortLink(base, db.recipes[k].shortUrl);
      CodeOfLink(base, link) == Some(db.recipes[k].shortUrl)
      && ShortUrlRedirect(db.recipes, CodeOfLink(base, link).value)
         == Success("/recipes/" + IntToString(db.recipes[k].id) + "/")
    ensures ShortUrlRedirect(db.recipes, unknown) == Failure(NotFound)
  {
    ShortLinkRoundTrip(base, db.recipes[k].shortUrl);
    FindByShortUrlFindsOwner(db.recipes, k);
    FindByShortUrlMissing(db.recipes, unknown);
  }

  // ---------------------------------------------------------------------
  // RecipeViewSet: create and update with permissions.
  // ---------------------------------------------------------------------

  /** The router actions of the recipe view set. */
  datatype RecipeAction =
    | ListAction | RetrieveAction | CreateAction | UpdateAction | PartialUpdateAction | DestroyAction
    | GetLinkAction | FavoriteAction | ShoppingCartAction | DownloadAction

  /** `get_serializer_class`: the full update (PUT) is refused; every other action proceeds. */
  function SerializerClass(action: RecipeAction): Outcome<ApiError> {
    if action == UpdateAction then Fail(MethodNotAllowed) else Pass
  }

  lemma OnlyPutRefused(action: RecipeAction)
    ensures SerializerClass(action).Fail? <==> action == UpdateAction
    ensures SerializerClass(action).Fail? ==> SerializerClass(action).error == MethodNotAllowed
  {
  }

  /**
   * POST /recipes/: the view-level permission, then validation, then
   * `create` with the validated data. Any refusal leaves the store as it
   * was.
   */
  method PostRecipe(db: Database, caller: Identity, payload: RecipePayload, tokens: seq<string>)
    returns (res: Result<Recipe, ApiError>)
    requires db.Valid()
    requires caller.User? ==> caller.id in db.users
    requires forall t :: t in tokens ==> TokenShaped(t, db.shortUrlLen)
    modifies db
    ensures db.Valid()
    ensures res.Failure? ==> unchanged(db)
    ensures caller.Anonymous? ==> res == Failure(NotAuthenticated)
    ensures caller.User? && !PayloadAccepted(payload, false, IngredientIds(old(db.ingredients)), TagIds(old(db.tags))) ==>
      res.Failure? && ValidationError(payload, false, IngredientIds(old(db.ingredients)), TagIds(old(db.tags)), res.error)
    ensures caller.User? && PayloadAccepted(payload, false, IngredientIds(old(db.ingredients)), TagIds(old(db.tags))) ==>
      (res.Failure? <==> CodesExhausted(ShortUrls(old(db.recipes)), tokens, db.shortUrlLen))
      && (res.Failure? ==> res.error == CodeSpaceExhausted)
    ensures res.Success? ==>
      && PayloadAccepted(payload, false, IngredientIds(db.ingredients), TagIds(db.tags))
      && FieldsComplete(payload, false)
      && WellFormedItems(payload.ingredients, IngredientIds(db.ingredients))
      && caller == User(res.value.author) && res.value.id == old(db.nextRecipeId)
      && res.value.name == Strip(payload.name.value) && res.value.text == Strip(payload.text.value)
      && res.value.image == payload.image && res.value.cookingTime == payload.cookingTime.value
      && res.value.shortUrl !in ShortUrls(old(db.recipes)) && |res.value.shortUrl| == db.shortUrlLen
      && db.recipes == [res.value] + old(db.recipes)
      && db.nextRecipeId == old(db.nextRecipeId) + 1
      && db.recipeTags == old(db.recipeTags)[res.value.id := SetOf(payload.tags)]
      && db.lines == old(db.lines) + NewLines(res.value.id, payload.ingredients)
      && LinesOf(db.lines, res.value.id) == NewLines(res.value.id, payload.ingredients)
    ensures db.State() == old(db.State()).(recipes := db.recipes, nextRecipeId := db.nextRecipeId,
                                           recipeTags := db.recipeTags, lines := db.lines)
  {
    if !HasPermission(Post, caller) {
      return Failure(NotAuthenticated);
    }
    var checked := Validate(payload, false, IngredientIds(db.ingredients), TagIds(db.tags));
    if checked.Failure? {
      return Failure(checked.error);
    }
    AcceptedPayloadIsWellFormed(payload, false, IngredientIds(db.ingredients), TagIds(db.tags));
    CleanedPayload(payload, false, IngredientIds(db.ingredients), TagIds(db.tags));
    AcceptedPayloadIsWellFormed(checked.value, false, IngredientIds(db.ingredients), TagIds(db.tags));
    res := Create(db, caller, checked.value, tokens);
  }

  /**
   * PUT or PATCH /recipes/{id}/: the view-level permission, the recipe
   * lookup, the object-level permission, the serializer choice (PUT is
   * refused here), validation, then `update` with the validated data. Any
   * refusal leaves the store as it was.
   */
  method ChangeRecipe(db: Database, caller: Identity, recipeId: int, payload: RecipePayload, partial: bool)
    returns (res: Result<Recipe, ApiError>)
    requires db.Valid()
    modifies db
    ensures db.Valid()
    ensures res.Failure? ==> unchanged(db)
    ensures caller.Anonymous? ==> res == Failure(NotAuthenticated)
    ensures caller.User? && recipeId !in RecipeIds(old(db.recipes)) ==> res == Failure(NotFound)
    ensures (caller.User? && recipeId in RecipeIds(old(db.recipes))
             && FindRecipe(old(db.recipes), recipeId).value.author != caller.id) ==>
      res == Failure(PermissionDenied)
    ensures (caller.User? && recipeId in RecipeIds(old(db.recipes))
             && FindRecipe(old(db.recipes), recipeId).value.author == caller.id && !partial) ==>
      res == Failure(MethodNotAllowed)
    ensures (caller.User? && recipeId in RecipeIds(old(db.recipes))
             && FindRecipe(old(db.recipes), recipeId).value.author == caller.id && partial) ==>
      (res.Success? <==> PayloadAccepted(payload, true, IngredientIds(old(db.ingredients)), TagIds(old(db.tags))))
      && (res.Failure? ==> ValidationError(payload, true, IngredientIds(old(db.ingredients)), TagIds(old(db.tags)), res.error))
    ensures res.Success? ==>
      var instance := FindRecipe(old(db.recipes), recipeId).value;
      && partial && PayloadAccepted(payload, true, IngredientIds(db.ingredients), TagIds(db.tags))
      && WellFormedItems(payload.ingredients, IngredientIds(db.ingredients))
      && caller == User(res.value.author) && res.value.id == recipeId
      && res.value.shortUrl == instance.shortUrl
      && res.value.name == StripField(payload.name).GetOr(instance.name)
      && res.value.text == StripField(payload.text).GetOr(instance.text)
      && res.value.cookingTime == payload.cookingTime.GetOr(instance.cookingTime)
      && res.value.image == (if payload.image.Some? then payload.image else instance.image)
      && db.recipes == ReplaceRow(old(db.recipes), res.value)
      && db.recipeTags == old(db.recipeTags)[recipeId := SetOf(payload.tags)]
      && db.lines == DropLines(old(db.lines), recipeId) + NewLines(recipeId, payload.ingredients)
    ensures db.State() == old(db.State()).(recipes := db.recipes, recipeTags := db.recipeTags, lines := db.lines)
  {
    var m := if partial then Patch else Put;
    if !HasPermission(m, caller) {
      return Failure(NotAuthenticated);
    }
    var found := FindRecipe(db.recipes, recipeId);
    if found.None? {
      return Failure(NotFound);
    }
    var instance := found.value;
    if !HasObjectPermission(m, caller, instance.author) {
      return Failure(PermissionDenied);
    }
    var chosen := SerializerClass(if partial then PartialUpdateAction else UpdateAction);
    if chosen.Fail? {
      return Failure(chosen.error);
    }
    var checked := Validate(payload, true, IngredientIds(db.ingredients), TagIds(db.tags));
    if checked.Failure? {
      return Failure(checked.error);
    }
    AcceptedPayloadIsWellFormed(payload, true, IngredientIds(db.ingredients), TagIds(db.tags));
    CleanedPayload(payload, true, IngredientIds(db.ingredients), TagIds(db.tags));
    AcceptedPayloadIsWellFormed(checked.value, true, IngredientIds(db.ingredients), TagIds(db.tags));
    var updated := Update(db, instance, checked.value);
    res := Success(updated);
  }

  /**
   * Through the endpoint a successful PATCH always carries non-empty
   * ingredient and tag lists, because `validate` runs on partial updates
   * too; the keep-the-old-lists branches of `update` are never taken.
   */
  lemma PatchAlwaysReplacesLists(payload: RecipePayload, knownIngredients: set<int>, knownTags: set<int>)
    requires PayloadAccepted(payload, true, knownIngredients, knownTags)
    ensures payload.ingredients != [] && payload.tags != []
  {
  }
}
