# Foodgram recipe core in Dafny

This project models the recipe and membership logic of the foodgram Django
backend and proves what that logic promises. Foodgram is a recipe-sharing
service. Users publish recipes built from a shared ingredient catalog and
tagged from a fixed tag list. They can follow authors, favourite recipes and
put recipes in a shopping cart, from which a shopping list is rendered.

The database is one `Models.Database` object. Its fields are the tables:
- users, tags and ingredients;
- recipes, kept newest first;
- recipe–tag sets;
- ingredient lines;
- the favorite, cart and subscription tables.

`Valid()` collects the schema's constraints:
- unique ingredient names;
- cooking time at least 1;
- a unique, non-empty short code per recipe;
- at most one line per (recipe, ingredient);
- the recipe author, each recipe's tag set and each ingredient line refer to stored rows.

The user and recipe columns of the favorite, cart and subscription tables are
not required to resolve.

It also holds the invariants the endpoints maintain: no duplicate membership
rows and no self-subscription. The schema does not declare those two.

Each ORM operation the source performs is a small method that keeps
`Valid()`. These are `get_or_create`, `save`, `tags.set`, `clear`,
`bulk_create`, and the row creates and deletes on the membership tables.
The endpoints are methods over the database. Each is proved against value
functions (`Toggle`, `ShoppingList`, `Fresh`, `NewLines`, …), and the
properties of those functions are proved as lemmas.

Modules follow the source files:
- `Models` covers models.py: entities, constraints, short codes, the database and name ordering.
- `Serializers` covers serializers.py: payload validation, `create`, `update` and the read projections.
- `Views` covers views.py: the registries, the shopping-list download, ingredient search, the short-link redirect, and the recipe write endpoints with DRF's check order.
- `Permissions` covers permissions.py.
- `Validators` covers validators.py.
- `Filters` covers filters.py.
- `LoadIngredients` covers the `load_ingredients` management command.
- `Text` holds string helpers: case folding, prefixes, whitespace trimming, code-point order and decimal rendering.
- `Wrappers` holds `Option`, `Result` and `Outcome`.

Random tokens from `secrets.token_urlsafe` are injected as a sequence of
strings. The seeding command receives its records as a list instead of
reading a JSON file.

Three behaviours of the source are worth stating outright:
- DRF runs `validate` on PATCH as well. It refuses empty ingredient and tag lists, so the branches of `update` that keep the old tags or lines cannot be reached through the endpoint. `Serializers.Update` models both branches as written. `Views.PatchAlwaysReplacesLists` shows the endpoint never takes the keeping branch.
- The recipe's `name` and `text` are DRF `CharField`s with their defaults. The value is trimmed of surrounding whitespace. It is refused as blank when nothing is left. Otherwise it is refused when it holds the null character U+0000 (the `ProhibitNullCharactersValidator` every `CharField` carries), and stored trimmed when it does not. `Text.Strip` models Python's `str.strip()`. `Serializers.Validate` hands on the trimmed data.
- `Ingredient.name` is unique, so `get_or_create` with a known name and another unit raises an integrity error. The command does not catch it. It is modelled as a `ServerError` that stops the run and keeps the rows created before it, because the loop runs outside a transaction.

## Model

| member | source | states |
|---|---|---|
| Models.GenerateShortCode | backend/foodgram/models.py:148-156 | a returned code is held by no recipe, has exactly SHORT_URL_LEN URL-safe characters, and is the first free candidate in draw order; no code is returned exactly when every candidate is taken |
| Models.ShortLinkRoundTrip | backend/foodgram/models.py:158-159 | the code is read back unchanged from the link `<base>/s/<code>/` |
| Models.ShortLinkInjective | backend/foodgram/models.py:158-159 | two codes with the same link are the same code |
| Models.Database.Save | backend/foodgram/models.py:161-164 | a code is generated only when `short_url` is empty; an existing code is never changed; a new code is fresh; running out of candidates leaves the store untouched |
| Models.Database.InsertRow | backend/foodgram/serializers.py:261-264 | a new recipe row gets the next id, goes first in `-pub_date` order, starts with no tags, and keeps every constraint |
| Models.Database.UpdateRow | backend/foodgram/serializers.py:276-281 | the row with the recipe's id is replaced in place; ids and short codes of all recipes stay as they were |
| Models.InsertKeepsRecipesOk | backend/foodgram/models.py:125-135 | inserting a row with positive cooking time and an unused code keeps ids and short codes unique |
| Models.ReplaceKeepsRecipesOk | backend/foodgram/models.py:161-164 | replacing a row that keeps its id and code keeps the recipe constraints, the id set and the code set |
| Models.OrderByName | backend/foodgram/views.py:225 | `order_by('name')`: the result is sorted by name and is a permutation of the input |
| Models.InsertByNameSorted | backend/foodgram/views.py:225 | inserting into a sorted list keeps it sorted and adds exactly that element |
| Models.OrderByNameStrict | backend/foodgram/models.py:53-58 | with unique ingredient names, the sorted catalog has no two rows with one name |
| Models.CountWithoutDuplicates | backend/foodgram/models.py:197-233 | in a table without duplicate pairs a pair matches at most once |
| Models.CountPositive | backend/foodgram/views.py:221-224 | a join matches a pair at least once exactly when the pair is in the table |
| Models.LinesOfAppend | backend/foodgram/serializers.py:240-249 | the lines of a recipe in an appended table are its lines in each part, in order |
| Models.LinesOfDropLines | backend/foodgram/serializers.py:285 | after `ingredients.clear()` the recipe has no lines and every other recipe keeps its own |
| Models.DropLinesKeepsOthers | backend/foodgram/serializers.py:285 | `clear()` removes exactly the lines of that recipe |
| Models.DropLinesOk | backend/foodgram/models.py:187-191 | clearing a recipe's lines keeps every line unique per (recipe, ingredient) and leaves none for that recipe |
| Models.NextRecipeIdUnused | backend/foodgram/serializers.py:261-267 | no stored line refers to the id the next recipe will get |
| Models.AppendIngredientOk | backend/foodgram/models.py:52-58 | appending an ingredient with an unused name and the next id keeps names and ids unique |
| Models.Database.GetOrCreateIngredient | backend/foodgram/management/commands/load_ingredients.py:19-22 | an existing (name, unit) row is reused; an unused name is inserted with the next id; a known name with another unit fails with nothing written |
| Models.Database.SetTags | backend/foodgram/serializers.py:266 | `tags.set` makes the recipe's tag set exactly the given ids |
| Models.Database.ClearLines | backend/foodgram/serializers.py:285 | the recipe's lines are removed and all other lines kept |
| Models.Database.BulkCreateLines | backend/foodgram/serializers.py:242-249 | the given lines are appended, keeping the (recipe, ingredient) uniqueness |
| Models.Database.SetFavorites | backend/foodgram/views.py:255 | the favorites table becomes the given duplicate-free rows |
| Models.Database.SetCarts | backend/foodgram/views.py:201 | the cart table becomes the given duplicate-free rows |
| Models.Database.SetSubscriptions | backend/foodgram/views.py:109 | the subscriptions table becomes the given rows, free of duplicates and self-pairs |
| Models.FindByShortUrl | backend/foodgram/views.py:37 | a recipe found holds the code; nothing found means no recipe holds the code |
| Models.FindByShortUrlFindsOwner | backend/foodgram/views.py:37 | looking up a stored recipe's code finds that recipe |
| Models.FindByShortUrlMissing | backend/foodgram/views.py:37 | looking up a code no recipe holds finds nothing |
| Serializers.NulSurvivesStrip | backend/foodgram/serializers.py:142-156 | the trimmed value holds the null character exactly when the sent value does, since trimming cuts only whitespace |
| Text.Strip | backend/foodgram/serializers.py:142-156 | the trimmed value is empty exactly when the sent value is whitespace only, otherwise it starts and ends with a non-space, and it is the sent value's middle with only whitespace cut from either end |
| Text.StripIdempotent | backend/foodgram/serializers.py:142-156 | trimming a trimmed value changes nothing |
| Text.StripTrims | backend/foodgram/serializers.py:142-156 | a value with a non-space character trims to its non-empty middle, which trims to itself |
| Text.DecimalRoundTrip | backend/foodgram/views.py:230 | a rendered total is a non-empty digit string that reads back as the total |
| Serializers.ValidateIngredients | backend/foodgram/serializers.py:164-192 | the list passes exactly when it is non-empty and every item is known, not repeated and has a positive amount; otherwise the error is the first failing check of the first failing item |
| Serializers.IngredientsAcceptedIff | backend/foodgram/serializers.py:164-192 | acceptance is equivalent to a non-empty list of known, distinct ids with positive amounts |
| Serializers.FirstIngredientErrorUnique | backend/foodgram/serializers.py:172-189 | the reported ingredient error is determined by the list |
| Serializers.ValidateTags | backend/foodgram/serializers.py:194-217 | tags pass exactly when the list is non-empty and every id is known and not repeated; otherwise the first failing tag's error |
| Serializers.TagsAcceptedIff | backend/foodgram/serializers.py:194-217 | acceptance is equivalent to a non-empty list of known, distinct tag ids |
| Serializers.FieldProblemsIff | backend/foodgram/serializers.py:142-156 | no field error exactly when name and text are present, hold a non-space character and no null character, the image is given, and cooking time is in 1..32767; a partial update only checks what it carries |
| Serializers.Validate | backend/foodgram/serializers.py:158-162 | a payload passes exactly when its fields (blank and null-character checks on name and text included), ingredients and tags pass; field errors are reported first, all together, then the first ingredient error, then the first tag error; a payload that passes is handed on with name and text trimmed |
| Serializers.CleanedPayload | backend/foodgram/serializers.py:142-162 | the validated data passes validation again and trims to itself; its name and text are the sent values with surrounding whitespace cut; its lists are the sent ones |
| Serializers.AcceptedPayloadIsWellFormed | backend/foodgram/serializers.py:158-162 | an accepted payload has non-empty lists of known, distinct ingredients with positive amounts and of known, distinct tags |
| Serializers.LinesOfNewLines | backend/foodgram/serializers.py:240-249 | the lines built for a recipe belong to it and to no other recipe |
| Serializers.ReplacedLinesReadBack | backend/foodgram/serializers.py:284-286 | after clearing and re-creating, the recipe reads back exactly the new lines and other recipes keep theirs |
| Serializers.AppendNewLinesOk | backend/foodgram/serializers.py:240-249 | lines built from a well-formed list for a recipe without lines keep the (recipe, ingredient) uniqueness |
| Serializers.NewRecipeLines | backend/foodgram/serializers.py:261-267 | a new recipe's lines keep the line constraints and read back as exactly one line per item |
| Serializers.Create | backend/foodgram/serializers.py:251-268 | an anonymous author is refused with nothing written; a signed-in caller fails exactly when every candidate code is taken, with `CodeSpaceExhausted`; otherwise the new recipe gets the next id, the caller as author, the payload's fields, a fresh short code, exactly the given tag set, and one line per item with its id and amount; only the recipes, the recipe id counter, the tag sets and the lines change |
| Serializers.Update | backend/foodgram/serializers.py:270-287 | given fields are patched and others kept; the image is kept unless a new one is given; id, author and code are unchanged; tags and lines are replaced only when their list is non-empty; every other table and both id counters are unchanged |
| Serializers.FindIngredient | backend/foodgram/serializers.py:220 | a line's ingredient is found exactly when its id is in the catalog |
| Serializers.GetIngredients | backend/foodgram/serializers.py:219-226 | one entry per line of the recipe, in order, with the ingredient's id, name, unit and the line's amount |
| Serializers.AuthoredBy | backend/foodgram/serializers.py:310 | exactly the author's recipes |
| Serializers.GetRecipes | backend/foodgram/serializers.py:308-314 | the preview is the first `recipes_limit` of the author's recipes (all of them without the parameter); a negative limit is an error |
| Serializers.GetRecipesCount | backend/foodgram/serializers.py:316-317 | the count is at most the number of recipes, and zero exactly when the user has authored none |
| Serializers.PreviewAndCount | backend/foodgram/serializers.py:308-317 | the preview never exceeds the count, and the count is the author's full recipe count whatever the limit |
| Filters.JoinMembershipMembers | backend/foodgram/filters.py:27 | the joined queryset holds exactly the recipes the user has a row for |
| Filters.JoinWithoutDuplicates | backend/foodgram/filters.py:37 | without duplicate rows the join keeps each matching recipe once, in queryset order |
| Filters.FilterByMembership | backend/foodgram/filters.py:18-38 | a false value or an anonymous user returns the queryset unchanged; otherwise exactly the recipes of the queryset the user has a row for in the table (favorites for `is_favorited`, the cart for `is_in_shopping_cart`); never anything outside it |
| Serializers.IsMarked | backend/foodgram/serializers.py:228-238 | an anonymous caller never has the mark; a signed-in caller has it exactly when a row of the table pairs them with the recipe |
| Filters.FlagsAgreeWithFilters | backend/foodgram/serializers.py:228-238 | `is_favorited` and `is_in_shopping_cart` are false for an anonymous caller; for a signed-in caller each is set exactly when the caller's row is in its table, which is exactly when the recipe survives the matching filter |
| Filters.FavoritedFilterKeepsOrder | backend/foodgram/filters.py:25-38 | on a valid store each filter keeps every matching recipe once, in queryset order |
| Validators.RefusedExactlyCaseVariantsOfMe | backend/foodgram/validators.py:4-6 | a username is refused exactly when it is `me`, `Me`, `mE` or `ME` |
| Validators.VerdictIgnoresCase | backend/foodgram/validators.py:5 | usernames with the same lower-case form get the same verdict |
| Validators.LongerNamesAccepted | backend/foodgram/validators.py:5 | any username not of length two, `meme` included, is accepted |
| Permissions.SafeMethodsAlwaysAllowed | backend/foodgram/permissions.py:5-15 | GET, HEAD and OPTIONS pass both permission checks for anyone |
| Permissions.WritesNeedAuthentication | backend/foodgram/permissions.py:5-9 | an unsafe method passes the view check exactly for a signed-in user |
| Permissions.WritesOnlyByAuthor | backend/foodgram/permissions.py:11-15 | an unsafe method passes the object check exactly for the object's author |
| Views.WithoutMembers | backend/foodgram/views.py:117-123 | deleting a pair removes exactly that pair |
| Views.WithoutKeepsNoDuplicates | backend/foodgram/views.py:117-123 | deleting keeps a duplicate-free table duplicate-free |
| Views.WithoutKeepsNoSelfPairs | backend/foodgram/views.py:116-124 | deleting never introduces a self-subscription |
| Views.ToggleEffect | backend/foodgram/views.py:249-267 | add succeeds exactly on an absent pair and remove exactly on a present one; on success the pair is present after add and absent after remove; a refusal changes nothing; other pairs are untouched |
| Views.ToggleKeepsNoDuplicates | backend/foodgram/views.py:249-257 | add and remove keep a duplicate-free table duplicate-free |
| Views.AddTwice | backend/foodgram/views.py:249-257 | adding twice succeeds, then is refused as already present |
| Views.RemoveAddRemove | backend/foodgram/views.py:249-267 | remove, add, remove of a present pair each succeed |
| Views.SelfSubscriptionRefused | backend/foodgram/views.py:99-103 | following yourself is refused, whatever the table holds, and leaves it unchanged |
| Views.SubscriptionKeepsInvariants | backend/foodgram/views.py:98-124 | subscribe and unsubscribe keep the table free of duplicates and self-pairs |
| Views.Subscribe | backend/foodgram/views.py:94-124 | anonymous callers and unknown authors are refused; otherwise the table and the answer are those of the subscription change; a refusal writes nothing; no other table or counter changes |
| Views.FindRecipe | backend/foodgram/views.py:246 | `get_object` finds a recipe exactly when its id is stored |
| Views.MarkResponse | backend/foodgram/views.py:249-267 | a refused change is answered 400 with its reason; a successful add answers with the recipe in short form, a successful remove with no body |
| Views.Favorite | backend/foodgram/views.py:245-267 | anonymous callers and unknown recipes are refused; otherwise favorites follow the add/remove rule and the answer is the short recipe on add; a refusal writes nothing; no other table or counter changes |
| Views.ShoppingCart | backend/foodgram/views.py:191-213 | the same rule on the cart table; a refusal writes nothing; no other table or counter changes |
| Views.CartedMembers | backend/foodgram/views.py:221-223 | the ingredients listed are exactly those used by a recipe in the user's cart |
| Views.CartedUniqueNames | backend/foodgram/views.py:221-223 | the listed ingredients have distinct names |
| Views.ShoppingList | backend/foodgram/views.py:221-225 | every entry is the name, total and unit of a catalog ingredient used by a recipe in the user's cart |
| Views.ShoppingListContents | backend/foodgram/views.py:221-225 | one entry per carted ingredient row, with its name, unit and total, in strictly increasing name order |
| Views.CartTotalWithoutDuplicates | backend/foodgram/views.py:224 | with a duplicate-free cart the total is the plain sum of amounts over carted lines |
| Views.RenderShopList | backend/foodgram/views.py:226-232 | the text is the header followed by one `name - total unit` line per entry |
| Views.RenderLinesAppend | backend/foodgram/views.py:227-232 | rendering a concatenation concatenates the renderings |
| Views.OneLinePerEntry | backend/foodgram/views.py:226-232 | with single-line names and units the body has exactly one line break per entry |
| Views.DownloadShoppingCart | backend/foodgram/views.py:220-238 | an anonymous caller is refused; otherwise the text of the caller's shopping list |
| Views.NothingCarted | backend/foodgram/views.py:221-223 | with no ingredient in the cart nothing is listed |
| Views.EmptyCartReport | backend/foodgram/views.py:221-232 | a user with an empty cart gets the header only |
| Views.FlourExample | backend/foodgram/views.py:221-232 | two carted recipes with 200 g and 300 g of flour give the single line `Flour - 500 g` |
| Views.Matching | backend/foodgram/views.py:277-280 | with a non-empty `name` query exactly the ingredients whose name starts with it ignoring case, each as often as the catalog holds it; with none or an empty one, the whole catalog |
| Views.SearchIngredients | backend/foodgram/views.py:275-281 | sorted by name and a permutation of the matching ingredients; without a query a permutation of the catalog |
| Views.ShortUrlRedirect | backend/foodgram/views.py:36-38 | answered 404 exactly when no recipe holds the code; otherwise it redirects to `/recipes/<id>/` of a recipe holding the code |
| Views.ShortLinkLeadsToRecipe | backend/foodgram/views.py:36-38 | a stored recipe's short link redirects to `/recipes/<id>/`; an unknown code is answered 404 |
| Views.OnlyPutRefused | backend/foodgram/views.py:172-175 | only the full update is refused, with MethodNotAllowed |
| Views.PostRecipe | backend/foodgram/views.py:164-170 | anonymous callers are refused; a payload that fails validation gets the error validation reports; an accepted payload is created unless every candidate code is taken; the new recipe gets the next id, the caller as author, the trimmed name and text, the image, cooking time, tags and lines of the payload and a fresh code; a refusal writes nothing; only the recipes, the recipe id counter, the tag sets and the lines change |
| Views.ChangeRecipe | backend/foodgram/views.py:164-175 | refusals come in DRF's order: not signed in, unknown recipe, not the author, PUT; the author's PATCH succeeds exactly when the payload passes validation, and otherwise gets the error validation reports; success keeps id, author and short code, takes the trimmed name and text and the other fields the payload carries, and replaces tags and lines; only the recipes, the tag sets and the lines change |
| Views.PatchAlwaysReplacesLists | backend/foodgram/serializers.py:158-162 | a PATCH that passes validation carries non-empty ingredient and tag lists |
| LoadIngredients.Seed | backend/foodgram/management/commands/load_ingredients.py:17-24 | on success the count is the number of created rows and the catalog is the old one followed by them; a clash stops the run at the first clashing record, keeping the rows created before it; the ingredient id counter advances by exactly the number of rows created, in both outcomes |
| LoadIngredients.LoadsWhenNamesAgree | backend/foodgram/models.py:53-58 | input whose names never come with two units, against the catalog or within itself, never clashes |
| LoadIngredients.FreshMembers | backend/foodgram/management/commands/load_ingredients.py:18-24 | a record is created exactly when it is in the input and not in the catalog |
| LoadIngredients.FreshDistinct | backend/foodgram/management/commands/load_ingredients.py:19-24 | no record is created twice |
| LoadIngredients.SeedOutcome | backend/foodgram/management/commands/load_ingredients.py:17-24 | after seeding every record is in the catalog, existing rows are kept as they were and not duplicated, and `created_count` is the number of distinct records the catalog lacked |
| LoadIngredients.FreshCount | backend/foodgram/management/commands/load_ingredients.py:17-24 | the number of records created is the number of distinct input records the catalog lacked |
| LoadIngredients.KeysAfterAppend | backend/foodgram/management/commands/load_ingredients.py:19-22 | the catalog keys after the run are the old keys followed by the created records |
| LoadIngredients.NothingFreshWhenKnown | backend/foodgram/management/commands/load_ingredients.py:19-24 | when every record is already stored nothing is created |
| LoadIngredients.SecondRunCreatesNothing | backend/foodgram/management/commands/load_ingredients.py:19-24 | a second run on the same input loads without error and creates nothing |
| LoadIngredients.ReportCarriesCount | backend/foodgram/management/commands/load_ingredients.py:26-30 | the success message is the fixed text around the count's decimal digits, and the count reads back from it |

## Left out

- Authentication and user management are not modelled, because they are thin wrappers over djoser and Django auth whose behaviour is not in these files. This covers token login, user creation, the password policy, `set_password` and the field stripping in `to_representation`.
- Avatar and image upload are not modelled, because they are blob storage. An image is an opaque optional reference, and an explicit `null` image is treated like an absent one.
- Randomness is not modelled: `secrets.token_urlsafe` is replaced by an injected token sequence. Running out of tokens stands for the retry loop never ending, which the source does not bound.
- `@transaction.atomic` and concurrency are not modelled. Each endpoint validates before it writes, so a refusal writes nothing. The check-then-act races on the membership tables are not modelled.
- The JSON file read is not modelled: records arrive as a list. Writing the message to stdout is not modelled; only its text is.
- HTTP plumbing, routing, redirect responses and status codes beyond the error kind are not modelled, and neither is `LimitOffsetPagination`.
- The library-defined `author` and `tags` filters (`AllValuesMultipleFilter`) and the debug prints in filters.py are not modelled.
- The subscribe response body (the followed author with a recipe preview) and the subscriptions listing are not modelled. The preview itself is modelled by `GetRecipes` and `GetRecipesCount`.
- Recipe list, retrieve and delete, the tag endpoints, `get-link` and the user endpoints are not modelled, because they are generic DRF actions with no logic of their own here.
- settings.py, admin.py, urls.py and the constants module are not part of this model. `SHORT_URL_LEN` is a parameter of the database.
- Serializers.Validate: does not check the name's `max_length` (`MAX_LENGHT_NAME`), because the bound lives in the constants module, which is not part of this model.
- The username regex validator is not modelled, because its pattern lives in the constants module.
- `int(item['amount'])` on non-numeric input is not modelled: amounts are integers.
- `int(limit)` on a non-numeric `recipes_limit` raises and answers with a server error. This is not modelled: `GetRecipes` takes the limit as an integer.
- An ingredient amount above 32767 passes `validate_ingredients` and would fail later in the database's small-integer column. That failure is not modelled.
- Collation is modelled as code-point order, and case folding covers only ASCII and Cyrillic letters. PostgreSQL's collation and Python's full Unicode `lower()` are locale and table driven.
- tests.py is not modelled, because its assertions compare a recipe object with an HTTP status and state nothing usable.
