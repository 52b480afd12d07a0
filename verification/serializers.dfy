/**
 * The API serializers' rules over the store: validation of a recipe's
 * ingredient list, creation and update of a recipe with its tags and
 * ingredient lines, the uniqueness and self-follow checks on relation writes,
 * the viewer-relative flags and the recipe limit on an author's card.
 */
module Serializers {
  import opened Wrappers
  import opened Tables
  import opened Models
  import Numerals

  // ---------------------------------------------------------------------
  // RecipeCreateSerializer: the ingredient list.
  // ---------------------------------------------------------------------

  /**
   * One validated item of the nested `ingredients` list. The item's `id` field
   * is declared with `source='ingredient'`, so after field validation the
   * ingredient is held under the key `ingredient`.
   */
  datatype IngredientItem = IngredientItem(ingredient: IngredientId, amount: int)

  datatype IngredientError = NoIngredients | RepeatedIngredients | AmountBelowOne

  /** `ingredient.get('id')` on a validated item: the item has no key `id`. */
  function MissingIdKey(item: IngredientItem): Option<IngredientId> {
    None
  }

  /** The item's ingredient, the identity the duplicate check is meant to compare. */
  function IngredientKey(item: IngredientItem): Option<IngredientId> {
    Some(item.ingredient)
  }

  /** Whether every amount is at least 1, scanning the items in order. */
  function AmountsAtLeastOne(items: seq<IngredientItem>): (ok: bool)
    ensures ok <==> forall i :: 0 <= i < |items| ==> items[i].amount >= 1
  {
    if items == [] then true
    else items[0].amount >= 1 && AmountsAtLeastOne(items[1..])
  }

  /**
   * `validate_ingredients`, with the id extraction `key` passed in: the list
   * must be non-empty, the extracted ids pairwise distinct (compared as
   * `len(ids) != len(set(ids))`), and every amount at least 1, checked in
   * that order. On success the list is returned unchanged.
   */
  function ValidateIngredients(items: seq<IngredientItem>, key: IngredientItem -> Option<IngredientId>)
    : (r: Result<seq<IngredientItem>, IngredientError>)
    ensures r.Success? ==> r.value == items
    ensures r == Failure(NoIngredients) <==> items == []
    ensures r == Failure(RepeatedIngredients) <==> items != [] && !Distinct(Project(items, key))
    ensures r == Failure(AmountBelowOne) <==>
      && items != []
      && Distinct(Project(items, key))
      && exists i :: 0 <= i < |items| && items[i].amount < 1
  {
    var ids := Project(items, key);
    DistinctIffNoCollapse(ids);
    if ids == [] then Failure(NoIngredients)
    else if |ids| != |ToSet(ids)| then Failure(RepeatedIngredients)
    else if !AmountsAtLeastOne(items) then Failure(AmountBelowOne)
    else Success(items)
  }

  /** With the extraction as written, every list of two or more items is rejected as repeated. */
  lemma AsWrittenRejectsEveryPair(items: seq<IngredientItem>)
    requires |items| >= 2
    ensures ValidateIngredients(items, MissingIdKey) == Failure(RepeatedIngredients)
  {
    var ids := Project(items, MissingIdKey);
    assert ids[0] == ids[1];
  }

  /** A concrete recipe of two different ingredients, 100 g and 2 pieces, is refused as written. */
  lemma AsWrittenRejectsTwoDifferentIngredients()
    ensures var items := [IngredientItem(1, 100), IngredientItem(2, 2)];
      && ValidateIngredients(items, MissingIdKey) == Failure(RepeatedIngredients)
      && ValidateIngredients(items, IngredientKey) == Success(items)
  {
    var items := [IngredientItem(1, 100), IngredientItem(2, 2)];
    AsWrittenRejectsEveryPair(items);
    var ids := Project(items, IngredientKey);
    assert ids == [Some(1), Some(2)];
  }

  /** No two items name the same ingredient. */
  ghost predicate IngredientsDistinct(items: seq<IngredientItem>) {
    forall i, j :: 0 <= i < j < |items| ==> items[i].ingredient != items[j].ingredient
  }

  /**
   * The evidently intended check: a list is accepted exactly when it is
   * non-empty, names each ingredient once and every amount is at least 1.
   */
  lemma IntendedValidation(items: seq<IngredientItem>)
    ensures ValidateIngredients(items, IngredientKey).Success? <==>
      && items != []
      && IngredientsDistinct(items)
      && forall i :: 0 <= i < |items| ==> items[i].amount >= 1
  {
    var ids := Project(items, IngredientKey);
    if IngredientsDistinct(items) {
      forall i, j | 0 <= i < j < |ids| ensures ids[i] != ids[j] {
        assert ids[i] == Some(items[i].ingredient) && ids[j] == Some(items[j].ingredient);
      }
    }
    if Distinct(ids) {
      forall i, j | 0 <= i < j < |items| ensures items[i].ingredient != items[j].ingredient {
        assert ids[i] != ids[j];
      }
    }
  }

  /** An amount of exactly 1 passes the amount check. */
  lemma AmountOneAccepted(i: IngredientId)
    ensures ValidateIngredients([IngredientItem(i, 1)], IngredientKey) == Success([IngredientItem(i, 1)])
  {
    var ids := Project([IngredientItem(i, 1)], IngredientKey);
    assert ids == [Some(i)];
  }

  // ---------------------------------------------------------------------
  // RecipeCreateSerializer: writing a recipe.
  // ---------------------------------------------------------------------

  /**
   * What field validation guarantees about the items before any serializer
   * method sees them: each names an existing ingredient and its amount fits
   * the PositiveIntegerField.
   */
  ghost predicate ItemsResolve(items: seq<IngredientItem>, ingredientIds: set<IngredientId>) {
    forall i :: 0 <= i < |items| ==> items[i].ingredient in ingredientIds && items[i].amount >= 0
  }

  /** The rows `add_ingredients` builds: one per item, in order, all linked to `recipe`. */
  function LinesFor(recipe: RecipeId, items: seq<IngredientItem>): (ls: seq<RecipeIngredient>)
    ensures |ls| == |items|
    ensures forall i :: 0 <= i < |items| ==>
      ls[i] == RecipeIngredient(recipe, items[i].ingredient, items[i].amount)
  {
    Project(items, (it: IngredientItem) => RecipeIngredient(recipe, it.ingredient, it.amount))
  }

  /** Every line built for `recipe` belongs to it and to nothing else. */
  lemma LinesForBelong(recipe: RecipeId, items: seq<IngredientItem>, other: RecipeId)
    ensures LinesOf(recipe, LinesFor(recipe, items)) == LinesFor(recipe, items)
    ensures other != recipe ==> LinesOf(other, LinesFor(recipe, items)) == []
  {
    var ls := LinesFor(recipe, items);
    assert forall l :: l in ls ==> l.recipe == recipe;
    FilterAll(ls, (l: RecipeIngredient) => l.recipe == recipe);
    if other != recipe {
      FilterNone(ls, (l: RecipeIngredient) => l.recipe == other);
    }
  }

  /** `add_ingredients`: one bulk insert of the lines built from `items`. */
  method AddIngredients(store: Store, items: seq<IngredientItem>, recipe: RecipeId)
    requires store.Valid()
    requires recipe in RecipeIds(store.db.recipes)
    requires ItemsResolve(items, store.db.ingredients.Keys)
    modifies store
    ensures store.Valid()
    ensures store.db == old(store.db).(lines := old(store.db.lines) + LinesFor(recipe, items))
    ensures LinesOf(recipe, store.db.lines) == LinesOf(recipe, old(store.db.lines)) + LinesFor(recipe, items)
    ensures forall r :: r != recipe ==> LinesOf(r, store.db.lines) == LinesOf(r, old(store.db.lines))
  {
    var batch := LinesFor(recipe, items);
    store.BulkCreateLines(batch);
    FilterConcat(old(store.db.lines), batch, (l: RecipeIngredient) => l.recipe == recipe);
    LinesForBelong(recipe, items, recipe);
    forall r | r != recipe
      ensures LinesOf(r, store.db.lines) == LinesOf(r, old(store.db.lines))
    {
      FilterConcat(old(store.db.lines), batch, (l: RecipeIngredient) => l.recipe == r);
      LinesForBelong(recipe, items, r);
    }
  }

  /** The validated data of a full (non-partial) write: every field is present. */
  datatype RecipeData = RecipeData(
    name: string,
    image: string,
    text: string,
    cookingTime: int,
    tags: seq<TagId>,
    ingredients: seq<IngredientItem>)

  /**
   * Lines built from a list the intended check accepted name each ingredient
   * once, each with an amount of at least 1; with the exact-lines guarantees
   * of `Create` and `Update` this is what a validated recipe holds.
   */
  lemma ValidatedLinesDistinct(id: RecipeId, items: seq<IngredientItem>)
    requires ValidateIngredients(items, IngredientKey).Success?
    ensures var ls := LinesFor(id, items);
      && ls != []
      && (forall i, j :: 0 <= i < j < |ls| ==> ls[i].ingredient != ls[j].ingredient)
      && (forall i :: 0 <= i < |ls| ==> ls[i].amount >= 1)
  {
    IntendedValidation(items);
  }

  /** Nothing in the store refers to a recipe id that is not (yet) a row. */
  lemma UnusedIdHasNothing(db: Db, id: RecipeId)
    requires Consistent(db)
    requires id !in RecipeIds(db.recipes)
    ensures TagsOf(id, db.recipeTags) == {}
    ensures LinesOf(id, db.lines) == []
  {
    FilterNone(db.lines, (l: RecipeIngredient) => l.recipe == id);
  }

  /**
   * `create`: the recipe row is created without the `ingredients` key, its
   * tags are set, and then exactly the supplied ingredient lines are added.
   * The author and the publication time come from outside the serializer.
   */
  method Create(store: Store, data: RecipeData, author: UserId, pubDate: int) returns (id: RecipeId)
    requires store.Valid()
    requires author in store.db.users && data.cookingTime >= 0
    requires forall t :: t in data.tags ==> t in store.db.tags
    requires ItemsResolve(data.ingredients, store.db.ingredients.Keys)
    modifies store
    ensures store.Valid()
    ensures id !in RecipeIds(old(store.db.recipes))
    ensures store.db == old(store.db).(
      recipes := old(store.db.recipes) + [Recipe(id, data.name, data.image, data.text, data.cookingTime, author, pubDate)],
      nextRecipe := old(store.db.nextRecipe) + 1,
      recipeTags := old(store.db.recipeTags) + (set t | t in data.tags :: RecipeTag(id, t)),
      lines := old(store.db.lines) + LinesFor(id, data.ingredients))
    ensures TagsOf(id, store.db.recipeTags) == ToSet(data.tags)
    ensures LinesOf(id, store.db.lines) == LinesFor(id, data.ingredients)
  {
    id := store.InsertRecipe(data.name, data.image, data.text, data.cookingTime, author, pubDate);
    UnusedIdHasNothing(old(store.db), id);
    store.AddTags(id, ToSet(data.tags));
    assert (set t | t in ToSet(data.tags) :: RecipeTag(id, t)) == (set t | t in data.tags :: RecipeTag(id, t));
    AddIngredients(store, data.ingredients, id);
  }

  /** The validated data of a partial write: a scalar field may be absent. */
  datatype Draft = Draft(
    name: Option<string>,
    image: Option<string>,
    text: Option<string>,
    cookingTime: Option<int>,
    tags: Option<seq<TagId>>,
    ingredients: Option<seq<IngredientItem>>)

  /** The row after `update`'s field assignments: a supplied value replaces, an absent one keeps. */
  function ApplyDraft(row: Recipe, d: Draft): (r: Recipe)
    ensures r.id == row.id && r.author == row.author && r.pubDate == row.pubDate
    ensures r.name == (if d.name.Some? then d.name.value else row.name)
    ensures r.image == (if d.image.Some? then d.image.value else row.image)
    ensures r.text == (if d.text.Some? then d.text.value else row.text)
    ensures r.cookingTime == (if d.cookingTime.Some? then d.cookingTime.value else row.cookingTime)
  {
    row.(name := d.name.GetOr(row.name),
         image := d.image.GetOr(row.image),
         text := d.text.GetOr(row.text),
         cookingTime := d.cookingTime.GetOr(row.cookingTime))
  }

  /** The ingredient lines after `id`'s lines are cleared and those built from `items` are added. */
  function ReplacedLines(lines: seq<RecipeIngredient>, id: RecipeId, items: seq<IngredientItem>): seq<RecipeIngredient> {
    Filter(lines, (l: RecipeIngredient) => l.recipe != id) + LinesFor(id, items)
  }

  /** The tag links after `id`'s links are cleared and `tags` are added. */
  function ReplacedTags(rts: set<RecipeTag>, id: RecipeId, tags: seq<TagId>): set<RecipeTag> {
    (set l | l in rts && l.recipe != id) + (set t | t in tags :: RecipeTag(id, t))
  }

  /** Replacement leaves `id` exactly the new lines, none of the old, and other recipes' lines untouched. */
  lemma ReplacedLinesExact(lines: seq<RecipeIngredient>, id: RecipeId, items: seq<IngredientItem>)
    ensures LinesOf(id, ReplacedLines(lines, id, items)) == LinesFor(id, items)
    ensures forall r :: r != id ==> LinesOf(r, ReplacedLines(lines, id, items)) == LinesOf(r, lines)
  {
    var cleared := Filter(lines, (l: RecipeIngredient) => l.recipe != id);
    var added := LinesFor(id, items);
    FilterConcat(cleared, added, (l: RecipeIngredient) => l.recipe == id);
    FilterNone(cleared, (l: RecipeIngredient) => l.recipe == id);
    LinesForBelong(id, items, id);
    forall r | r != id
      ensures LinesOf(r, ReplacedLines(lines, id, items)) == LinesOf(r, lines)
    {
      FilterConcat(cleared, added, (l: RecipeIngredient) => l.recipe == r);
      FilterNarrow(lines, (l: RecipeIngredient) => l.recipe != id, (l: RecipeIngredient) => l.recipe == r);
      LinesForBelong(id, items, r);
    }
  }

  /** Replacement leaves `id` exactly the supplied tags and other recipes' tags untouched. */
  lemma ReplacedTagsExact(rts: set<RecipeTag>, id: RecipeId, tags: seq<TagId>)
    ensures TagsOf(id, ReplacedTags(rts, id, tags)) == ToSet(tags)
    ensures forall r :: r != id ==> TagsOf(r, ReplacedTags(rts, id, tags)) == TagsOf(r, rts)
  {
    var out := ReplacedTags(rts, id, tags);
    forall t | t in tags ensures t in TagsOf(id, out) {
      assert RecipeTag(id, t) in out;
    }
  }

  /**
   * `update`: the supplied scalar fields are assigned on the instance, its tag
   * links and ingredient lines are cleared, the supplied tags and lines are
   * added, and the row is saved. Tags and lines are replaced, not merged.
   */
  method Update(store: Store, id: RecipeId, d: Draft)
    requires store.Valid()
    requires id in RecipeIds(store.db.recipes)
    requires d.tags.Some? && d.ingredients.Some?
    requires d.cookingTime.Some? ==> d.cookingTime.value >= 0
    requires forall t :: t in d.tags.value ==> t in store.db.tags
    requires ItemsResolve(d.ingredients.value, store.db.ingredients.Keys)
    modifies store
    ensures store.Valid()
    ensures var i := IndexOf(old(store.db.recipes), id);
      store.db == old(store.db).(
        recipes := old(store.db.recipes)[i := ApplyDraft(old(store.db.recipes)[i], d)],
        recipeTags := ReplacedTags(old(store.db.recipeTags), id, d.tags.value),
        lines := ReplacedLines(old(store.db.lines), id, d.ingredients.value))
    ensures TagsOf(id, store.db.recipeTags) == ToSet(d.tags.value)
    ensures LinesOf(id, store.db.lines) == LinesFor(id, d.ingredients.value)
    ensures forall r :: r != id ==> LinesOf(r, store.db.lines) == LinesOf(r, old(store.db.lines))
    ensures forall r :: r != id ==> TagsOf(r, store.db.recipeTags) == TagsOf(r, old(store.db.recipeTags))
  {
    var instance := store.db.recipes[IndexOf(store.db.recipes, id)];
    instance := instance.(name := d.name.GetOr(instance.name));
    instance := instance.(image := d.image.GetOr(instance.image));
    instance := instance.(text := d.text.GetOr(instance.text));
    instance := instance.(cookingTime := d.cookingTime.GetOr(instance.cookingTime));
    store.ClearTags(id);
    store.ClearLines(id);
    var ingredients := d.ingredients.value;
    var tags := d.tags.value;
    store.AddTags(id, ToSet(tags));
    assert (set t | t in ToSet(tags) :: RecipeTag(id, t)) == (set t | t in tags :: RecipeTag(id, t));
    AddIngredients(store, ingredients, id);
    store.SaveRecipe(instance);
    ReplacedLinesExact(old(store.db.lines), id, ingredients);
    ReplacedTagsExact(old(store.db.recipeTags), id, tags);
  }

  // ---------------------------------------------------------------------
  // Relation writes: SubscriptionSerializer, CartSerializer, FavoriteSerializer.
  // ---------------------------------------------------------------------

  datatype RelationError =
    | UnknownUser
    | UnknownRecipe
    | AlreadySubscribed
    | AlreadyInCart
    | AlreadyFavorited
    | SelfFollow

  /** `UniqueTogetherValidator`: fails with `err` when the row's pair is already stored. */
  function UniqueTogether<T(==,!new)>(table: seq<T>, row: T, err: RelationError): (r: Outcome<RelationError>)
    ensures r == Pass <==> row !in table
    ensures r.Fail? ==> r.error == err
  {
    var hits := Filter(table, (x: T) => x == row);
    assert row in table ==> row in hits;
    assert hits != [] ==> hits[0] in hits;
    if hits != [] then Fail(err) else Pass
  }

  /**
   * Validation of a Follow write, in the order the serializer runs its checks:
   * the related users exist, the pair is new, and then `validate` refuses a
   * user who names themself as author.
   */
  function ValidateFollow(db: Db, row: Follow): (r: Outcome<RelationError>)
    ensures r == Pass <==>
      row.user in db.users && row.author in db.users && row !in db.follows && row.user != row.author
    ensures r == Fail(AlreadySubscribed) <==> row.user in db.users && row.author in db.users && row in db.follows
    ensures r == Fail(SelfFollow) <==>
      row.user in db.users && row.author in db.users && row !in db.follows && row.user == row.author
  {
    if row.user !in db.users || row.author !in db.users then Fail(UnknownUser)
    else if UniqueTogether(db.follows, row, AlreadySubscribed).Fail? then Fail(AlreadySubscribed)
    else if row.user == row.author then Fail(SelfFollow)
    else Pass
  }

  /** Validation of a Cart write: the user and the recipe exist and the pair is new. */
  function ValidateCart(db: Db, row: UserRecipe): (r: Outcome<RelationError>)
    ensures r == Pass <==> row.user in db.users && row.recipe in RecipeIds(db.recipes) && row !in db.carts
    ensures r == Fail(AlreadyInCart) <==>
      row.user in db.users && row.recipe in RecipeIds(db.recipes) && row in db.carts
  {
    if row.user !in db.users then Fail(UnknownUser)
    else if row.recipe !in RecipeIds(db.recipes) then Fail(UnknownRecipe)
    else UniqueTogether(db.carts, row, AlreadyInCart)
  }

  /** Validation of a Favorite write: the user and the recipe exist and the pair is new. */
  function ValidateFavorite(db: Db, row: UserRecipe): (r: Outcome<RelationError>)
    ensures r == Pass <==> row.user in db.users && row.recipe in RecipeIds(db.recipes) && row !in db.favorites
    ensures r == Fail(AlreadyFavorited) <==>
      row.user in db.users && row.recipe in RecipeIds(db.recipes) && row in db.favorites
  {
    if row.user !in db.users then Fail(UnknownUser)
    else if row.recipe !in RecipeIds(db.recipes) then Fail(UnknownRecipe)
    else UniqueTogether(db.favorites, row, AlreadyFavorited)
  }

  /**
   * In a consistent store a self-subscription of an existing user is refused
   * by the self-follow check: the uniqueness check that runs first can never
   * fire for it, so the order of the two checks is not observable.
   */
  lemma SelfFollowRejected(db: Db, u: UserId)
    requires Consistent(db)
    requires u in db.users
    ensures ValidateFollow(db, Follow(u, u)) == Fail(SelfFollow)
  {
  }

  /** A Follow write that just succeeded cannot be repeated. */
  lemma SecondFollowConflicts(db: Db, row: Follow)
    requires ValidateFollow(db, row) == Pass
    ensures ValidateFollow(db.(follows := db.follows + [row]), row) == Fail(AlreadySubscribed)
  {
  }

  /** A Cart write that just succeeded cannot be repeated. */
  lemma SecondCartConflicts(db: Db, row: UserRecipe)
    requires ValidateCart(db, row) == Pass
    ensures ValidateCart(db.(carts := db.carts + [row]), row) == Fail(AlreadyInCart)
  {
  }

  /** A Favorite write that just succeeded cannot be repeated. */
  lemma SecondFavoriteConflicts(db: Db, row: UserRecipe)
    requires ValidateFavorite(db, row) == Pass
    ensures ValidateFavorite(db.(favorites := db.favorites + [row]), row) == Fail(AlreadyFavorited)
  {
  }

  /** `is_valid()` followed by `save()` on SubscriptionSerializer. */
  method Subscribe(store: Store, row: Follow) returns (r: Outcome<RelationError>)
    requires store.Valid()
    modifies store
    ensures store.Valid()
    ensures r == ValidateFollow(old(store.db), row)
    ensures store.db == if r.Pass? then old(store.db).(follows := old(store.db.follows) + [row]) else old(store.db)
  {
    r := ValidateFollow(store.db, row);
    if r.Pass? {
      var ok := store.InsertFollow(row);
      assert ok;
    }
  }

  /** `is_valid()` followed by `save()` on CartSerializer. */
  method AddToCart(store: Store, row: UserRecipe) returns (r: Outcome<RelationError>)
    requires store.Valid()
    modifies store
    ensures store.Valid()
    ensures r == ValidateCart(old(store.db), row)
    ensures store.db == if r.Pass? then old(store.db).(carts := old(store.db.carts) + [row]) else old(store.db)
  {
    r := ValidateCart(store.db, row);
    if r.Pass? {
      var ok := store.InsertCart(row);
      assert ok;
    }
  }

  /** `is_valid()` followed by `save()` on FavoriteSerializer. */
  method AddToFavorites(store: Store, row: UserRecipe) returns (r: Outcome<RelationError>)
    requires store.Valid()
    modifies store
    ensures store.Valid()
    ensures r == ValidateFavorite(old(store.db), row)
    ensures store.db == if r.Pass? then old(store.db).(favorites := old(store.db.favorites) + [row]) else old(store.db)
  {
    r := ValidateFavorite(store.db, row);
    if r.Pass? {
      var ok := store.InsertFavorite(row);
      assert ok;
    }
  }

  // ---------------------------------------------------------------------
  // Viewer-relative flags.
  // ---------------------------------------------------------------------

  /** The user behind a request: anonymous, or a signed-in user. */
  datatype Viewer = Anonymous | Member(user: UserId)

  /** `.filter(user=u, recipe=recipe).exists()` on Cart or Favorite. */
  function PairExists(rows: seq<UserRecipe>, u: UserId, recipe: RecipeId): (b: bool)
    ensures b <==> UserRecipe(u, recipe) in rows
  {
    var hits := Filter(rows, (x: UserRecipe) => x.user == u && x.recipe == recipe);
    assert UserRecipe(u, recipe) in rows ==> UserRecipe(u, recipe) in hits;
    assert hits != [] ==> hits[0] in hits;
    hits != []
  }

  /** `get_is_favorited`: false without a request or for an anonymous viewer. */
  function IsFavorited(db: Db, request: Option<Viewer>, recipe: RecipeId): (b: bool)
    ensures b <==> request.Some? && request.value.Member? && UserRecipe(request.value.user, recipe) in db.favorites
  {
    match request
    case None => false
    case Some(Anonymous) => false
    case Some(Member(u)) => PairExists(db.favorites, u, recipe)
  }

  /** `get_is_in_shopping_cart`: false without a request or for an anonymous viewer. */
  function IsInShoppingCart(db: Db, request: Option<Viewer>, recipe: RecipeId): (b: bool)
    ensures b <==> request.Some? && request.value.Member? && UserRecipe(request.value.user, recipe) in db.carts
  {
    match request
    case None => false
    case Some(Anonymous) => false
    case Some(Member(u)) => PairExists(db.carts, u, recipe)
  }

  /** `get_is_subscribed`: false for an anonymous viewer. */
  function IsSubscribed(db: Db, viewer: Viewer, author: UserId): (b: bool)
    ensures b <==> viewer.Member? && Follow(viewer.user, author) in db.follows
  {
    match viewer
    case Anonymous => false
    case Member(u) =>
      var hits := Filter(db.follows, (f: Follow) => f.user == u && f.author == author);
      assert Follow(u, author) in db.follows ==> Follow(u, author) in hits;
      assert hits != [] ==> hits[0] in hits;
      hits != []
  }

  /** A successful Subscribe makes the subscriber see the author as subscribed. */
  lemma SubscribeShows(db: Db, row: Follow)
    requires ValidateFollow(db, row) == Pass
    ensures IsSubscribed(db.(follows := db.follows + [row]), Member(row.user), row.author)
    ensures !IsSubscribed(db, Member(row.user), row.author)
  {
  }

  /** Deleting the recipe clears both flags for every viewer. */
  lemma DeletedRecipeFlagsFalse(db: Db, request: Option<Viewer>, id: RecipeId)
    ensures !IsFavorited(WithoutRecipe(db, id), request, id)
    ensures !IsInShoppingCart(WithoutRecipe(db, id), request, id)
  {
  }

  // ---------------------------------------------------------------------
  // SubscriptionShowSerializer: the author card.
  // ---------------------------------------------------------------------

  /** A recipe as RecipeShortSerializer shows it. */
  datatype RecipeShort = RecipeShort(id: RecipeId, name: string, image: string, cookingTime: int)

  function Short(r: Recipe): RecipeShort {
    RecipeShort(r.id, r.name, r.image, r.cookingTime)
  }

  datatype LimitError =
    | NotAnInteger  // `int(limit)` raises ValueError
    | NegativeLimit // a queryset refuses a negative slice bound

  /**
   * `get_recipes`: with no `recipes_limit` or an empty one, all of the
   * author's recipes, newest first; otherwise the first `int(limit)` of them.
   */
  function GetRecipes(db: Db, author: UserId, limit: Option<string>): (r: Result<seq<RecipeShort>, LimitError>)
    ensures limit.None? || limit == Some("") ==> r == Success(Project(RecipesBy(db.recipes, author), Short))
    ensures r.Success? ==>
      exists n :: 0 <= n <= |RecipesBy(db.recipes, author)| && r.value == Project(RecipesBy(db.recipes, author)[..n], Short)
    ensures limit.Some? && limit.value != [] ==>
      (r == Failure(NotAnInteger) <==> Numerals.ParseInt(limit.value).None?)
    ensures limit.Some? && limit.value != [] ==>
      (r == Failure(NegativeLimit) <==> Numerals.ParseInt(limit.value).Some? && Numerals.ParseInt(limit.value).value < 0)
    ensures limit.Some? && limit.value != [] && Numerals.ParseInt(limit.value).Some? && Numerals.ParseInt(limit.value).value >= 0 ==>
      var n := Numerals.ParseInt(limit.value).value;
      var all := RecipesBy(db.recipes, author);
      r == Success(Project(all[..if n < |all| then n else |all|], Short))
  {
    var all := RecipesBy(db.recipes, author);
    if limit.None? || limit.value == [] then
      assert all[..|all|] == all;
      Success(Project(all, Short))
    else
      match Numerals.ParseInt(limit.value)
      case None => Failure(NotAnInteger)
      case Some(n) =>
        if n < 0 then Failure(NegativeLimit)
        else Success(Project(all[..if n < |all| then n else |all|], Short))
  }

  /** A limit of n >= 0 yields min(n, count) recipes, the newest ones. */
  lemma GetRecipesLimited(db: Db, author: UserId, n: nat)
    ensures var all := RecipesBy(db.recipes, author);
      var m := if n < |all| then n else |all|;
      GetRecipes(db, author, Some(Numerals.ShowInt(n))) == Success(Project(all[..m], Short))
  {
    Numerals.ParseShowInt(n);
  }

  /** A limit written with a leading `+` or a leading zero selects the same recipes as its digits alone. */
  lemma GetRecipesSpelling(db: Db, author: UserId, digits: string)
    requires digits != [] && Numerals.AllDigits(digits)
    ensures GetRecipes(db, author, Some("+" + digits)) == GetRecipes(db, author, Some(digits))
    ensures GetRecipes(db, author, Some("0" + digits)) == GetRecipes(db, author, Some(digits))
  {
    Numerals.ParsePlus(digits);
    Numerals.LeadingZero(digits);
  }

  /** "0" gives an empty list. */
  lemma GetRecipesZero(db: Db, author: UserId)
    ensures GetRecipes(db, author, Some("0")) == Success([])
  {
    assert Numerals.ParseInt("0") == Some(0);
  }

  /** `get_recipes_count`: the number of the author's recipes. */
  function GetRecipesCount(db: Db, author: UserId): (n: nat)
    ensures n == |RecipesBy(db.recipes, author)|
  {
    var mine := Filter(db.recipes, (r: Recipe) => r.author == author);
    assert |multiset(RecipesBy(db.recipes, author))| == |multiset(mine)|;
    |mine|
  }

  /** The count never falls below what the card lists, whatever the limit. */
  lemma CountBoundsRecipes(db: Db, author: UserId, limit: Option<string>)
    requires GetRecipes(db, author, limit).Success?
    ensures |GetRecipes(db, author, limit).value| <= GetRecipesCount(db, author)
  {
  }
}
