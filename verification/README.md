# Foodgram recipe store and serializer rules, in Dafny

This project models the core of the Foodgram backend, a Django/DRF recipe
service. The model has two layers.

- **The tables of the `recipes` app.** These are Tag, Recipe, Ingredient,
  RecipeIngredient, Follow, Cart and Favorite, together with the users they
  refer to and the automatic Recipe–Tag many-to-many table. They form one
  in-memory store, `Models.Store`. Its invariant `Models.Consistent` is the
  conjunction of every declared constraint:
  - the primary key of Recipe;
  - the unique tag slug;
  - `unique_follow` and `can_not_follow_yourself`;
  - `unique_shoppingcart` and `unique_favorite`;
  - the non-negativity of the PositiveIntegerFields `cooking_time` and `amount`;
  - every foreign key resolving.

  Each insert, and each CASCADE delete, is a method that keeps this invariant.
  The deletes are also pure transitions on the table contents (`Models.Db`),
  and lemmas say exactly which rows they remove.
- **The rules of the API serializers.** These cover:
  - the ingredient-list validator;
  - `add_ingredients`, `create` and `update` of a recipe;
  - the uniqueness and self-follow checks on Follow/Cart/Favorite writes;
  - the viewer-relative flags `is_favorited`, `is_in_shopping_cart` and
    `is_subscribed`;
  - the `recipes_limit` on an author's card.

Modules:

| file | module | contents |
|---|---|---|
| wrappers.dfy | `Wrappers` | `Option`, `Result`, `Outcome` |
| tables.dfy | `Tables` | `Filter` (a WHERE clause over a table in order), `Project`, Python's `set(list)`, pairwise distinctness and key uniqueness, and the lemmas relating them |
| models.dfy | `Models` | rows, constraints, the `-pub_date` ordering, cascade transitions, class `Store` |
| numerals.dfy | `Numerals` | `int(text)` for a decimal literal, and `str(n)` |
| serializers.dfy | `Serializers` | the serializer rules over a `Store` and its snapshot |

Modelling choices:

- Tables whose rows the code appends and filters are sequences in insertion
  order. Tag and Ingredient are maps keyed by primary key. The Recipe–Tag
  table is a set, because Django's automatic through table is unique on
  (recipe, tag).
- Autoincrement keys are counters.
- `pub_date` is an integer supplied when a recipe is created.
- A read query is a function of the table contents: `Filter(...) != []`
  stands for `.filter(...).exists()`.
- A write is a method of `Store`, or a method taking the store, whose
  `ensures` states the whole new table content.

The service's design documentation and its source disagree in three places.
The model follows the source in each:

- `cooking_time` and `amount` are PositiveIntegerFields, so the tables accept
  0 (backend/recipes/models.py:27, 64). Only the ingredient validator raises
  `amount` to at least 1.
- RecipeIngredient declares no uniqueness on (recipe, ingredient)
  (backend/recipes/models.py:60-64). `Models.RepeatedLinesAllowed` exhibits a
  consistent store holding the same line twice.
- DRF runs the `UniqueTogetherValidator` before the serializer's `validate`.
  So a Follow write is checked for an existing pair before it is checked for
  user == author. `Serializers.SelfFollowRejected` shows that in a consistent
  store the order cannot be observed.

One more behaviour comes from the framework rather than from either
document. `get_recipes` slices a Django queryset, not a Python list, and
Django refuses a negative slice bound. A negative `recipes_limit` is
therefore an error rather than dropping items from the end, and
`Serializers.GetRecipes` returns `NegativeLimit`.

## Model

| member | source | states |
|---|---|---|
| `Tables.DistinctIffNoCollapse` | backend/api/serializers.py:208 | `len(ids) != len(set(ids))` holds exactly when two positions of `ids` hold the same value; `set` never grows a list |
| `Models.Listing` | backend/recipes/models.py:47 | the default Recipe ordering lists rows newest `pub_date` first and is a permutation of the table |
| `Models.InsertByDate` | backend/recipes/models.py:47 | placing one row into a newest-first listing keeps it newest first and adds exactly that row |
| `Models.RecipesBy` | backend/recipes/models.py:29-33 | `author.recipes.all()` holds exactly the author's recipes, each as often as in the table, newest first |
| `Models.DeleteRecipePreserves` | backend/recipes/models.py:29-35 | deleting a recipe with its CASCADE keeps every declared constraint |
| `Models.DeleteRecipeExact` | backend/recipes/models.py:62 | the recipe CASCADE removes exactly the recipe's tag links, ingredient lines, Cart and Favorite rows; every other row and table stays |
| `Models.DeleteUserPreserves` | backend/recipes/models.py:29-33 | deleting a user with the CASCADE through recipes, Follow, Cart and Favorite keeps every declared constraint |
| `Models.DeleteUserExact` | backend/recipes/models.py:69-78 | the user CASCADE removes the user, their recipes and what hangs off them, and every Follow, Cart and Favorite row naming the user; nothing else |
| `Models.DeleteIngredientPreserves` | backend/recipes/models.py:63 | deleting an ingredient and the lines using it keeps every constraint |
| `Models.DeleteTagPreserves` | backend/recipes/models.py:35 | deleting a tag and its recipe links keeps every constraint |
| `Models.RepeatedLinesAllowed` | backend/recipes/models.py:60-64 | a store holding one recipe's ingredient line twice meets every declared constraint |
| `Models.Store.constructor` | backend/recipes/models.py:7-148 | the empty database meets every constraint |
| `Models.Store.RegisterUser` | backend/recipes/models.py:4 | a new user gets a fresh key; the constraints still hold |
| `Models.Store.InsertTag` | backend/recipes/models.py:11 | a tag whose slug is taken is refused with nothing written; otherwise it is stored under a fresh key, and slugs stay unique |
| `Models.Store.InsertIngredient` | backend/recipes/models.py:50-53 | an ingredient is stored under a fresh key |
| `Models.Store.InsertRecipe` | backend/recipes/models.py:21-42 | `Recipe.objects.create` appends one row with a fresh primary key and keeps the key unique |
| `Models.Store.SaveRecipe` | backend/recipes/models.py:21-42 | `save()` rewrites the row with that key in place, leaving the set of keys and the other rows alone |
| `Models.Store.ClearTags` | backend/recipes/models.py:35 | `tags.clear()` removes exactly the recipe's tag links |
| `Models.Store.AddTags` | backend/recipes/models.py:35 | `tags.add(*tags)` links the recipe to exactly the given tags in addition to its old ones |
| `Models.Store.ClearLines` | backend/recipes/models.py:36-39 | `ingredients.clear()` deletes exactly the recipe's RecipeIngredient rows, keeping the order of the rest |
| `Models.Store.BulkCreateLines` | backend/recipes/models.py:60-64 | `bulk_create` appends the batch in order when every foreign key resolves and every amount is non-negative |
| `Models.Store.InsertFollow` | backend/recipes/models.py:84-91 | a Follow row is written iff it is new, not a self-follow and both users exist; so `unique_follow` and `can_not_follow_yourself` hold after it |
| `Models.Store.InsertCart` | backend/recipes/models.py:116-120 | a Cart row is written iff it is new and both keys resolve, so `unique_shoppingcart` holds after it |
| `Models.Store.InsertFavorite` | backend/recipes/models.py:144-148 | a Favorite row is written iff it is new and both keys resolve, so `unique_favorite` holds after it |
| `Models.Store.DeleteRecipe` | backend/recipes/models.py:62 | deleting a recipe leaves the tables described by the recipe cascade, and they still meet every constraint |
| `Models.Store.DeleteUser` | backend/recipes/models.py:29-33 | deleting a user leaves the tables described by the user cascade, and they still meet every constraint |
| `Models.Store.DeleteIngredient` | backend/recipes/models.py:63 | deleting an ingredient removes it and its lines, and the constraints still hold |
| `Models.Store.DeleteTag` | backend/recipes/models.py:35 | deleting a tag removes it and its links, and the constraints still hold |
| `Numerals.ParseInt` | backend/api/serializers.py:292 | `int(limit)` accepts exactly an optional sign followed by one or more decimal digits, and reads the digits' decimal value, negated after `-` |
| `Numerals.LeadingZero` | backend/api/serializers.py:292 | a leading zero does not change the value `int` reads |
| `Numerals.ParsePlus` | backend/api/serializers.py:292 | `int("+" + digits)` reads the same value as `int(digits)` |
| `Numerals.ParseShowInt` | backend/api/serializers.py:292 | reading back the decimal rendering of any integer gives that integer |
| `Serializers.ValidateIngredients` | backend/api/serializers.py:199-217 | an empty list fails with the "at least 1" error; otherwise repeated extracted ids fail with the "repeated" error; otherwise any amount below 1 fails; otherwise the list is returned unchanged (each error iff its condition) |
| `Serializers.AmountsAtLeastOne` | backend/api/serializers.py:212-216 | the amount loop passes iff every item's amount is at least 1 |
| `Serializers.AsWrittenRejectsEveryPair` | backend/api/serializers.py:201-203 | with ids read as `.get('id')` from items keyed `ingredient`, every list of two or more items is rejected as repeated |
| `Serializers.AsWrittenRejectsTwoDifferentIngredients` | backend/api/serializers.py:99-101 | two different ingredients are refused as written and accepted when the items' ingredients are compared |
| `Serializers.IntendedValidation` | backend/api/serializers.py:199-217 | comparing ingredients, a list is accepted iff it is non-empty, names each ingredient once and every amount is at least 1 |
| `Serializers.AmountOneAccepted` | backend/api/serializers.py:213 | an amount of exactly 1 passes |
| `Serializers.ValidatedLinesDistinct` | backend/api/serializers.py:187-217 | the lines built from an accepted list are non-empty, name each ingredient once and carry amounts of at least 1 |
| `Serializers.LinesFor` | backend/api/serializers.py:190-197 | one RecipeIngredient per item, in order, carrying that item's ingredient and amount and linked to the recipe |
| `Serializers.LinesForBelong` | backend/api/serializers.py:190-197 | the built lines all belong to the given recipe and to no other |
| `Serializers.AddIngredients` | backend/api/serializers.py:187-197 | `add_ingredients` appends exactly the built lines; the recipe's lines grow by exactly them, other recipes' lines and stored lines are untouched |
| `Serializers.UnusedIdHasNothing` | backend/recipes/models.py:35-39 | in a consistent store no tag link or line refers to a recipe key that is not a row |
| `Serializers.Create` | backend/api/serializers.py:219-224 | `create` appends the recipe row with a fresh key, links it to exactly the supplied tags, and gives it exactly the supplied ingredient lines |
| `Serializers.ApplyDraft` | backend/api/serializers.py:228-234 | each of name, image, text and cooking_time takes the supplied value when present and keeps the old one when absent; key, author and pub_date never change |
| `Serializers.ReplacedLinesExact` | backend/api/serializers.py:236-241 | clearing and re-adding leaves the recipe exactly the new lines and none of the old, and leaves other recipes' lines unchanged |
| `Serializers.ReplacedTagsExact` | backend/api/serializers.py:235-239 | clearing and re-adding leaves the recipe exactly the supplied tags, and leaves other recipes' tags unchanged |
| `Serializers.Update` | backend/api/serializers.py:226-243 | `update` rewrites the row with the supplied-or-kept fields and replaces (does not merge) the recipe's tags and lines with exactly the supplied ones; other recipes are untouched |
| `Serializers.UniqueTogether` | backend/api/serializers.py:17-23 | the `UniqueTogetherValidator` fails with its own error iff the pair is already stored |
| `Serializers.ValidateFollow` | backend/api/serializers.py:251-265 | a Follow write passes iff both users exist, the pair is new and user != author; an existing pair gives "already subscribed", a new self pair gives "cannot follow yourself" |
| `Serializers.ValidateCart` | backend/api/serializers.py:17-23 | a Cart write passes iff user and recipe exist and the pair is new; an existing pair gives "already in the shopping list" |
| `Serializers.ValidateFavorite` | backend/api/serializers.py:31-37 | a Favorite write passes iff user and recipe exist and the pair is new; an existing pair gives "already in favourites" |
| `Serializers.SelfFollowRejected` | backend/api/serializers.py:259-265 | in a consistent store, subscribing an existing user to themself is refused with the self-follow error |
| `Serializers.SecondFollowConflicts` | backend/api/serializers.py:251-257 | once a Follow write succeeded, the same write is refused as already subscribed |
| `Serializers.SecondCartConflicts` | backend/api/serializers.py:17-23 | once a Cart write succeeded, the same write is refused as already in the cart |
| `Serializers.SecondFavoriteConflicts` | backend/api/serializers.py:31-37 | once a Favorite write succeeded, the same write is refused as already favourited |
| `Serializers.Subscribe` | backend/api/serializers.py:246-265 | validating then saving a Follow appends the row exactly when validation passes and changes nothing otherwise; the constraints still hold |
| `Serializers.AddToCart` | backend/api/serializers.py:12-23 | validating then saving a Cart row appends it exactly when validation passes; the constraints still hold |
| `Serializers.AddToFavorites` | backend/api/serializers.py:26-37 | validating then saving a Favorite row appends it exactly when validation passes; the constraints still hold |
| `Serializers.PairExists` | backend/api/serializers.py:146-148 | `.filter(user=, recipe=).exists()` is true iff that (user, recipe) row is in the table |
| `Serializers.IsFavorited` | backend/api/serializers.py:138-148 | false without a request or for an anonymous viewer; otherwise true iff (viewer, recipe) is in Favorite |
| `Serializers.IsInShoppingCart` | backend/api/serializers.py:150-161 | false without a request or for an anonymous viewer; otherwise true iff (viewer, recipe) is in Cart |
| `Serializers.IsSubscribed` | backend/api/serializers.py:65-73 | false for an anonymous viewer; otherwise true iff (viewer, author) is in Follow |
| `Serializers.SubscribeShows` | backend/api/serializers.py:65-73 | a successful Follow write turns the subscriber's `is_subscribed` for that author from false to true |
| `Serializers.DeletedRecipeFlagsFalse` | backend/api/serializers.py:138-161 | after a recipe is deleted neither flag is set for it, for any viewer |
| `Serializers.GetRecipes` | backend/api/serializers.py:286-293 | no or empty `recipes_limit` gives all the author's recipes newest first; a limit `int` reads as n >= 0 gives exactly the newest min(n, count) of them; a non-numeric limit and a negative limit each fail with their own error |
| `Serializers.GetRecipesSpelling` | backend/api/serializers.py:291-292 | a limit written with a leading `+` or a leading zero selects the same recipes as its digits alone |
| `Serializers.GetRecipesLimited` | backend/api/serializers.py:291-292 | a limit of n >= 0 gives the newest min(n, count) recipes |
| `Serializers.GetRecipesZero` | backend/api/serializers.py:291-292 | a limit of "0" gives an empty list |
| `Serializers.GetRecipesCount` | backend/api/serializers.py:295-296 | the count is the length of the author's full listing |
| `Serializers.CountBoundsRecipes` | backend/api/serializers.py:286-296 | the count is never below the number of recipes the card lists |

## Findings

| source | as written | input that shows it | evidently intended | confidence | as-written member | corrected member |
|---|---|---|---|---|---|---|
| backend/api/serializers.py:201-203 | the duplicate check reads `ingredient.get('id')`; after field validation the item holds its ingredient under `ingredient` (the field has `source='ingredient'`, lines 99-101), so every extracted id is `None` | `[{ingredient: 1, amount: 100}, {ingredient: 2, amount: 2}]` is rejected as "ingredients must not repeat" | compare the items' ingredients, so a recipe with two or more different ingredients is accepted | not executed | `Serializers.AsWrittenRejectsEveryPair` | `Serializers.IntendedValidation` |

`Serializers.ValidateIngredients` takes the id extraction as a parameter.
`Serializers.MissingIdKey` is the extraction as written and
`Serializers.IngredientKey` is the intended one. `Create` and `Update` receive
items whose ingredients resolve. `Serializers.ValidatedLinesDistinct` connects
the intended check to the exact lines they write.

## Left out

- Image handling is not modelled. `Base64ImageField` decoding and image
  storage are foreign library code, so an image is an opaque string.
- `to_representation` and the JSON shape of responses are not modelled.
  `RecipeShortSerializer` is kept only as the projection `Serializers.Short`.
- The djoser user serializers, authentication, and the users app's own
  fields and uniqueness are not modelled. Users are bare keys.
- The CSV ingredient loader is not modelled (it is file I/O and printing).
  Neither are the admin registrations, the URL routes or the view module
  (they hold no logic).
- No shown file implements shopping-list aggregation or its export.
- The shown serializers contain no code that removes a Follow, Cart or
  Favorite row, so relation removal is not modelled.
- Transactions, concurrent writers and database race handling are not
  modelled. Every operation is one sequential step.
- `pub_date` auto-timestamping is not modelled. The time is a parameter of
  `Create`.
- Follow's `ordering = ['-author']` is not modelled. No modelled query lists
  Follow rows.
- Field-level validation is not modelled as code. This covers the
  primary-key lookups of tag and ingredient ids, the 32-bit upper bound of
  PositiveIntegerField, and the `min_value=0` of `amount` and
  `cooking_time`. It appears as the preconditions of `Create` and `Update`
  (`ItemsResolve`, the tag and `cooking_time` requirements).
- Numerals.ParseInt: weaker than Python's `int()`, which also accepts
  surrounding whitespace, `_` between digits and non-ASCII digits. The model
  rejects those inputs.
- Serializers.Update: requires both `tags` and `ingredients` to be present. A
  partial update without them raises a `KeyError` after the tags and lines
  were already cleared, and that failure path is not modelled. The source
  has no rollback of its own.
- Serializers.IsSubscribed: takes a viewer, not an optional request. Without
  a request the source fails with an attribute error instead of returning
  false.
- Serializers.GetRecipes: the limit arrives as the single query-string value
  that `request.GET.get` returns. The repeated-parameter behaviour of query
  dictionaries is not modelled. The function also takes the limit directly,
  not an optional request. Without a request the source fails with an
  attribute error at `request.GET`, and that failure is not modelled.
- Models.Listing: recipes with equal `pub_date` keep their table order.
  `ordering = ['-pub_date']` leaves the order of ties to the database. So
  under a limit, the exact prefix that `Serializers.GetRecipes` and
  `Serializers.GetRecipesLimited` return is one of the prefixes the source
  may return.
- Serializers.ValidateFollow, Serializers.ValidateCart and
  Serializers.ValidateFavorite: report only the first unknown key. DRF
  validates every field and reports each failing field together, for
  example both an unknown user and an unknown recipe.
