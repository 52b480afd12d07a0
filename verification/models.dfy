/**
 * The recipes app's tables (Tag, Recipe, Ingredient, RecipeIngredient,
 * Follow, Cart, Favorite, plus the users they refer to and the Recipe-Tag
 * many-to-many table) as one in-memory store. The declared unique, check and
 * foreign-key constraints are the store's invariant; every insert and every
 * CASCADE delete keeps it.
 */
module Models {
  import opened Wrappers
  import opened Tables

  type UserId = nat
  type TagId = nat
  type IngredientId = nat
  type RecipeId = nat

  datatype Tag = Tag(name: string, color: string, slug: string)

  datatype Ingredient = Ingredient(name: string, measurementUnit: string)

  /** A row of the Recipe table; its tags live in the many-to-many table. */
  datatype Recipe = Recipe(
    id: RecipeId,
    name: string,
    image: string,
    text: string,
    cookingTime: int,
    author: UserId,
    pubDate: int)

  /** A row of the automatic Recipe-Tag many-to-many table. */
  datatype RecipeTag = RecipeTag(recipe: RecipeId, tag: TagId)

  /** A row of RecipeIngredient: one ingredient line of one recipe. */
  datatype RecipeIngredient = RecipeIngredient(recipe: RecipeId, ingredient: IngredientId, amount: int)

  /** A row of Follow: `user` is subscribed to `author`. */
  datatype Follow = Follow(user: UserId, author: UserId)

  /** A row of Cart or of Favorite: the two tables have the same columns. */
  datatype UserRecipe = UserRecipe(user: UserId, recipe: RecipeId)

  /** The primary key column of Recipe. */
  function RecipeKey(r: Recipe): RecipeId { r.id }

  function RecipeIds(rs: seq<Recipe>): set<RecipeId> {
    set r | r in rs :: r.id
  }

  /** `recipe.recipeingredient_set`: the ingredient lines of one recipe, in table order. */
  function LinesOf(id: RecipeId, lines: seq<RecipeIngredient>): seq<RecipeIngredient> {
    Filter(lines, (l: RecipeIngredient) => l.recipe == id)
  }

  /** `recipe.tags`: the tags linked to one recipe. */
  function TagsOf(id: RecipeId, recipeTags: set<RecipeTag>): set<TagId> {
    set l | l in recipeTags && l.recipe == id :: l.tag
  }

  // ---------------------------------------------------------------------
  // The declared constraints, one predicate per table.
  // ---------------------------------------------------------------------

  ghost predicate Below(keys: set<nat>, next: nat) {
    forall k :: k in keys ==> k < next
  }

  /** `slug = SlugField(unique=True)`. */
  ghost predicate SlugsUnique(tags: map<TagId, Tag>) {
    forall a, b :: a in tags && b in tags && a != b ==> tags[a].slug != tags[b].slug
  }

  /** Primary keys are unique; `author` refers to a user; `cooking_time` is a PositiveIntegerField. */
  ghost predicate RecipesValid(rs: seq<Recipe>, users: set<UserId>, next: nat) {
    && UniqueBy(rs, RecipeKey)
    && forall r :: r in rs ==> r.id < next && r.author in users && r.cookingTime >= 0
  }

  ghost predicate RecipeTagsValid(rts: set<RecipeTag>, recipeIds: set<RecipeId>, tagIds: set<TagId>) {
    forall l :: l in rts ==> l.recipe in recipeIds && l.tag in tagIds
  }

  /** Both foreign keys resolve and `amount` is a PositiveIntegerField. No uniqueness is declared. */
  ghost predicate LinesValid(lines: seq<RecipeIngredient>, recipeIds: set<RecipeId>, ingredientIds: set<IngredientId>) {
    forall l :: l in lines ==> l.recipe in recipeIds && l.ingredient in ingredientIds && l.amount >= 0
  }

  /** `unique_follow` and `can_not_follow_yourself`, and both foreign keys resolve. */
  ghost predicate FollowsValid(follows: seq<Follow>, users: set<UserId>) {
    && Distinct(follows)
    && forall f :: f in follows ==> f.user != f.author && f.user in users && f.author in users
  }

  /** `unique_shoppingcart` / `unique_favorite`, and both foreign keys resolve. */
  ghost predicate UserRecipesValid(rows: seq<UserRecipe>, users: set<UserId>, recipeIds: set<RecipeId>) {
    && Distinct(rows)
    && forall r :: r in rows ==> r.user in users && r.recipe in recipeIds
  }

  // ---------------------------------------------------------------------
  // Default ordering of Recipe: `ordering = ['-pub_date']`.
  // ---------------------------------------------------------------------

  ghost predicate NewestFirst(rs: seq<Recipe>) {
    forall i, j :: 0 <= i < j < |rs| ==> rs[i].pubDate >= rs[j].pubDate
  }

  /** Places `r` into a listing that is already newest first. */
  function InsertByDate(r: Recipe, rs: seq<Recipe>): (out: seq<Recipe>)
    requires NewestFirst(rs)
    ensures NewestFirst(out)
    ensures multiset(out) == multiset(rs) + multiset{r}
    ensures out[0] == r || (rs != [] && out[0] == rs[0])
  {
    if rs == [] || r.pubDate >= rs[0].pubDate then
      [r] + rs
    else
      assert rs == [rs[0]] + rs[1..];
      var tail := InsertByDate(r, rs[1..]);
      PrependKeepsNewestFirst(rs[0], tail);
      [rs[0]] + tail
  }

  lemma PrependKeepsNewestFirst(r: Recipe, rs: seq<Recipe>)
    requires NewestFirst(rs)
    requires rs != [] ==> r.pubDate >= rs[0].pubDate
    ensures NewestFirst([r] + rs)
  {
    var out := [r] + rs;
    forall i, j | 0 <= i < j < |out| ensures out[i].pubDate >= out[j].pubDate {
      if i == 0 {
        assert out[j] == rs[j - 1];
        assert rs[0].pubDate >= rs[j - 1].pubDate || j - 1 == 0;
      } else {
        assert out[i] == rs[i - 1] && out[j] == rs[j - 1];
      }
    }
  }

  /** The rows of `rs`, newest first: what a Recipe queryset returns by default. */
  function Listing(rs: seq<Recipe>): (out: seq<Recipe>)
    ensures NewestFirst(out)
    ensures multiset(out) == multiset(rs)
  {
    if rs == [] then []
    else
      assert rs == [rs[0]] + rs[1..];
      InsertByDate(rs[0], Listing(rs[1..]))
  }

  /** `author.recipes.all()`: the author's recipes in the default ordering. */
  function RecipesBy(rs: seq<Recipe>, author: UserId): (out: seq<Recipe>)
    ensures NewestFirst(out)
    ensures multiset(out) == multiset(Filter(rs, (r: Recipe) => r.author == author))
    ensures forall r :: r in out <==> r in rs && r.author == author
  {
    var mine := Filter(rs, (r: Recipe) => r.author == author);
    var out := Listing(mine);
    assert forall r :: r in out <==> r in multiset(mine);
    out
  }

  /** Position of the row with primary key `id`. */
  function IndexOf(rs: seq<Recipe>, id: RecipeId): (i: nat)
    requires id in RecipeIds(rs)
    ensures i < |rs| && rs[i].id == id
  {
    if rs[0].id == id then 0
    else
      assert id in RecipeIds(rs[1..]) by {
        var r :| r in rs && r.id == id;
        assert r in rs[1..];
      }
      1 + IndexOf(rs[1..], id)
  }

  /** The content of every table at one moment. */
  datatype Db = Db(
    users: set<UserId>,
    tags: map<TagId, Tag>,
    ingredients: map<IngredientId, Ingredient>,
    recipes: seq<Recipe>,
    recipeTags: set<RecipeTag>,
    lines: seq<RecipeIngredient>,
    follows: seq<Follow>,
    carts: seq<UserRecipe>,
    favorites: seq<UserRecipe>,
    nextUser: nat,
    nextTag: nat,
    nextIngredient: nat,
    nextRecipe: nat)

  /** Every declared constraint holds. */
  ghost predicate Consistent(db: Db) {
    && Below(db.users, db.nextUser)
    && Below(db.tags.Keys, db.nextTag)
    && SlugsUnique(db.tags)
    && Below(db.ingredients.Keys, db.nextIngredient)
    && RecipesValid(db.recipes, db.users, db.nextRecipe)
    && RecipeTagsValid(db.recipeTags, RecipeIds(db.recipes), db.tags.Keys)
    && LinesValid(db.lines, RecipeIds(db.recipes), db.ingredients.Keys)
    && FollowsValid(db.follows, db.users)
    && UserRecipesValid(db.carts, db.users, RecipeIds(db.recipes))
    && UserRecipesValid(db.favorites, db.users, RecipeIds(db.recipes))
  }

  // ---------------------------------------------------------------------
  // CASCADE deletes, as transitions between table contents.
  // ---------------------------------------------------------------------

  /** Deleting a recipe also deletes its tag links, ingredient lines, Cart and Favorite rows. */
  function WithoutRecipe(db: Db, id: RecipeId): Db {
    db.(
      recipes := Filter(db.recipes, (r: Recipe) => r.id != id),
      recipeTags := (set l | l in db.recipeTags && l.recipe != id),
      lines := Filter(db.lines, (l: RecipeIngredient) => l.recipe != id),
      carts := Filter(db.carts, (c: UserRecipe) => c.recipe != id),
      favorites := Filter(db.favorites, (f: UserRecipe) => f.recipe != id))
  }

  /** The ids of the recipes `u` wrote. */
  function AuthoredBy(rs: seq<Recipe>, u: UserId): set<RecipeId> {
    set r | r in rs && r.author == u :: r.id
  }

  /**
   * Deleting a user deletes the user's recipes (and, through them, their tag
   * links, lines, Cart and Favorite rows) and every Follow, Cart and Favorite
   * row naming the user.
   */
  function WithoutUser(db: Db, u: UserId): Db {
    var gone := AuthoredBy(db.recipes, u);
    db.(
      users := db.users - {u},
      recipes := Filter(db.recipes, (r: Recipe) => r.author != u),
      recipeTags := (set l | l in db.recipeTags && l.recipe !in gone),
      lines := Filter(db.lines, (l: RecipeIngredient) => l.recipe !in gone),
      follows := Filter(db.follows, (f: Follow) => f.user != u && f.author != u),
      carts := Filter(db.carts, (c: UserRecipe) => c.user != u && c.recipe !in gone),
      favorites := Filter(db.favorites, (f: UserRecipe) => f.user != u && f.recipe !in gone))
  }

  /** Deleting an ingredient deletes the RecipeIngredient rows that use it. */
  function WithoutIngredient(db: Db, i: IngredientId): Db {
    db.(
      ingredients := db.ingredients - {i},
      lines := Filter(db.lines, (l: RecipeIngredient) => l.ingredient != i))
  }

  /** Deleting a tag deletes its rows of the Recipe-Tag table. */
  function WithoutTag(db: Db, t: TagId): Db {
    db.(
      tags := db.tags - {t},
      recipeTags := (set l | l in db.recipeTags && l.tag != t))
  }

  lemma {:induction false} DeleteRecipePreserves(db: Db, id: RecipeId)
    requires Consistent(db)
    ensures Consistent(WithoutRecipe(db, id))
  {
    var d := WithoutRecipe(db, id);
    var ids := RecipeIds(db.recipes);
    RecipeIdsWithout(db.recipes, id);
    assert RecipeIds(d.recipes) == ids - {id};
    RecipesAfterDelete(db.recipes, db.users, db.users, db.nextRecipe, (r: Recipe) => r.id != id);
    RecipeTagsAfterDelete(db.recipeTags, d.recipeTags, ids, ids - {id}, db.tags.Keys);
    LinesAfterDelete(db.lines, ids, ids - {id}, db.ingredients.Keys, (l: RecipeIngredient) => l.recipe != id);
    UserRecipesAfterDelete(db.carts, db.users, ids, db.users, ids - {id}, (c: UserRecipe) => c.recipe != id);
    UserRecipesAfterDelete(db.favorites, db.users, ids, db.users, ids - {id}, (f: UserRecipe) => f.recipe != id);
  }

  /** The cascade removes exactly the rows that refer to the recipe and leaves every other row. */
  lemma DeleteRecipeExact(db: Db, id: RecipeId)
    ensures var d := WithoutRecipe(db, id);
      && (forall r :: r in d.recipes <==> r in db.recipes && r.id != id)
      && (forall l :: l in d.recipeTags <==> l in db.recipeTags && l.recipe != id)
      && (forall l :: l in d.lines <==> l in db.lines && l.recipe != id)
      && (forall c :: c in d.carts <==> c in db.carts && c.recipe != id)
      && (forall f :: f in d.favorites <==> f in db.favorites && f.recipe != id)
      && d.users == db.users && d.follows == db.follows && d.tags == db.tags && d.ingredients == db.ingredients
      && id !in RecipeIds(d.recipes)
      && TagsOf(id, d.recipeTags) == {}
      && LinesOf(id, d.lines) == []
  {
    var d := WithoutRecipe(db, id);
    FilterNone(d.lines, (l: RecipeIngredient) => l.recipe == id);
  }

  lemma {:induction false} DeleteUserPreserves(db: Db, u: UserId)
    requires Consistent(db)
    ensures Consistent(WithoutUser(db, u))
  {
    var d := WithoutUser(db, u);
    var ids := RecipeIds(db.recipes);
    var gone := AuthoredBy(db.recipes, u);
    RecipeIdsNotBy(db.recipes, u);
    var kept := RecipeIds(d.recipes);
    assert ids - gone <= kept;
    RecipesAfterDelete(db.recipes, db.users, d.users, db.nextRecipe, (r: Recipe) => r.author != u);
    RecipeTagsAfterDelete(db.recipeTags, d.recipeTags, ids, kept, db.tags.Keys);
    LinesAfterDelete(db.lines, ids, kept, db.ingredients.Keys, (l: RecipeIngredient) => l.recipe !in gone);
    FollowsAfterDelete(db.follows, db.users, d.users, (f: Follow) => f.user != u && f.author != u);
    UserRecipesAfterDelete(db.carts, db.users, ids, d.users, kept, (c: UserRecipe) => c.user != u && c.recipe !in gone);
    UserRecipesAfterDelete(db.favorites, db.users, ids, d.users, kept, (f: UserRecipe) => f.user != u && f.recipe !in gone);
  }

  /**
   * The cascade removes the user, the user's recipes with their tag links and
   * lines, and every Follow, Cart and Favorite row naming the user or one of
   * those recipes; every other row stays.
   */
  lemma DeleteUserExact(db: Db, u: UserId)
    ensures var d := WithoutUser(db, u);
      var gone := AuthoredBy(db.recipes, u);
      && d.users == db.users - {u}
      && (forall r :: r in d.recipes <==> r in db.recipes && r.author != u)
      && (forall l :: l in d.recipeTags <==> l in db.recipeTags && l.recipe !in gone)
      && (forall l :: l in d.lines <==> l in db.lines && l.recipe !in gone)
      && (forall f :: f in d.follows <==> f in db.follows && f.user != u && f.author != u)
      && (forall c :: c in d.carts <==> c in db.carts && c.user != u && c.recipe !in gone)
      && (forall f :: f in d.favorites <==> f in db.favorites && f.user != u && f.recipe !in gone)
      && d.tags == db.tags && d.ingredients == db.ingredients
  {
  }

  /**
   * RecipeIngredient declares no uniqueness on (recipe, ingredient): a store
   * holding the same ingredient line twice for one recipe meets every constraint.
   */
  lemma RepeatedLinesAllowed()
    ensures var line := RecipeIngredient(0, 0, 5);
      var db := Db({0}, map[], map[0 := Ingredient("salt", "g")],
                   [Recipe(0, "soup", "soup.png", "Boil.", 10, 0, 0)], {}, [line, line], [], [], [], 1, 0, 1, 1);
      Consistent(db) && LinesOf(0, db.lines) == [line, line]
  {
    var line := RecipeIngredient(0, 0, 5);
    var rs := [Recipe(0, "soup", "soup.png", "Boil.", 10, 0, 0)];
    assert RecipeIds(rs) == {0};
    FilterAll([line, line], (l: RecipeIngredient) => l.recipe == 0);
  }

  lemma DeleteIngredientPreserves(db: Db, i: IngredientId)
    requires Consistent(db)
    ensures Consistent(WithoutIngredient(db, i))
  {
  }

  lemma DeleteTagPreserves(db: Db, t: TagId)
    requires Consistent(db)
    ensures Consistent(WithoutTag(db, t))
  {
  }

  // ---------------------------------------------------------------------
  // What each table keeps through a CASCADE delete.
  // ---------------------------------------------------------------------

  lemma RecipeIdsWithout(rs: seq<Recipe>, id: RecipeId)
    ensures RecipeIds(Filter(rs, (r: Recipe) => r.id != id)) == RecipeIds(rs) - {id}
  {
    var kept := Filter(rs, (r: Recipe) => r.id != id);
    forall k | k in RecipeIds(rs) - {id} ensures k in RecipeIds(kept) {
      var r :| r in rs && r.id == k;
      assert r in kept;
    }
  }

  lemma RecipeIdsNotBy(rs: seq<Recipe>, u: UserId)
    ensures RecipeIds(rs) - (set r | r in rs && r.author == u :: r.id) <= RecipeIds(Filter(rs, (r: Recipe) => r.author != u))
  {
    var kept := Filter(rs, (r: Recipe) => r.author != u);
    forall k | k in RecipeIds(rs) - (set r | r in rs && r.author == u :: r.id) ensures k in RecipeIds(kept) {
      var r :| r in rs && r.id == k;
      assert r in kept;
    }
  }

  lemma RecipesAfterDelete(rs: seq<Recipe>, users: set<UserId>, users': set<UserId>, next: nat, keep: Recipe -> bool)
    requires RecipesValid(rs, users, next)
    requires forall r :: r in rs && keep(r) ==> r.author in users'
    ensures RecipesValid(Filter(rs, keep), users', next)
  {
    FilterKeepsUniqueBy(rs, keep, RecipeKey);
  }

  /** Tag links kept by a cascade still refer to a kept recipe and an existing tag. */
  lemma RecipeTagsAfterDelete(
    rts: set<RecipeTag>, kept: set<RecipeTag>, ids: set<RecipeId>, ids': set<RecipeId>, tagIds: set<TagId>)
    requires RecipeTagsValid(rts, ids, tagIds)
    requires kept <= rts
    requires forall l :: l in kept ==> l.recipe in ids'
    ensures RecipeTagsValid(kept, ids', tagIds)
  {
  }

  lemma LinesAfterDelete(
    lines: seq<RecipeIngredient>, ids: set<RecipeId>, ids': set<RecipeId>, ingredientIds: set<IngredientId>,
    keep: RecipeIngredient -> bool)
    requires LinesValid(lines, ids, ingredientIds)
    requires forall l :: l in lines && keep(l) ==> l.recipe in ids'
    ensures LinesValid(Filter(lines, keep), ids', ingredientIds)
  {
  }

  lemma FollowsAfterDelete(follows: seq<Follow>, users: set<UserId>, users': set<UserId>, keep: Follow -> bool)
    requires FollowsValid(follows, users)
    requires forall f :: f in follows && keep(f) ==> f.user in users' && f.author in users'
    ensures FollowsValid(Filter(follows, keep), users')
  {
    FilterKeepsDistinct(follows, keep);
  }

  lemma UserRecipesAfterDelete(
    rows: seq<UserRecipe>, users: set<UserId>, ids: set<RecipeId>, users': set<UserId>, ids': set<RecipeId>,
    keep: UserRecipe -> bool)
    requires UserRecipesValid(rows, users, ids)
    requires forall r :: r in rows && keep(r) ==> r.user in users' && r.recipe in ids'
    ensures UserRecipesValid(Filter(rows, keep), users', ids')
  {
    FilterKeepsDistinct(rows, keep);
  }

  /**
   * The database behind the ORM. Every table is a component of `db`, which
   * each write replaces by the content it leaves behind: the tables whose
   * order the code relies on are sequences in insertion order, Tag and
   * Ingredient are reference data keyed by id, and the next* counters stand
   * for autoincrement.
   */
  class Store {
    var db: Db

    /** Every declared constraint holds. */
    ghost predicate Valid()
      reads this
    {
      Consistent(db)
    }

    constructor ()
      ensures Valid()
      ensures db == Db({}, map[], map[], [], {}, [], [], [], [], 0, 0, 0, 0)
    {
      db := Db({}, map[], map[], [], {}, [], [], [], [], 0, 0, 0, 0);
    }

    /** A new user row (users are created by the authentication layer). */
    method RegisterUser() returns (u: UserId)
      requires Valid()
      modifies this
      ensures Valid()
      ensures u !in old(db.users)
      ensures db == old(db).(users := old(db.users) + {u}, nextUser := old(db.nextUser) + 1)
    {
      u := db.nextUser;
      db := db.(users := db.users + {u}, nextUser := db.nextUser + 1);
    }

    /** Inserts a tag; a taken slug violates `unique=True` and nothing is written. */
    method InsertTag(tag: Tag) returns (r: Option<TagId>)
      requires Valid()
      modifies this
      ensures Valid()
      ensures r.None? <==> exists k :: k in old(db.tags) && old(db.tags)[k].slug == tag.slug
      ensures r.None? ==> db == old(db)
      ensures r.Some? ==> r.value !in old(db.tags)
      ensures r.Some? ==> db == old(db).(tags := old(db.tags)[r.value := tag], nextTag := old(db.nextTag) + 1)
    {
      if exists k :: k in db.tags && db.tags[k].slug == tag.slug {
        r := None;
      } else {
        r := Some(db.nextTag);
        db := db.(tags := db.tags[db.nextTag := tag], nextTag := db.nextTag + 1);
      }
    }

    method InsertIngredient(ingredient: Ingredient) returns (id: IngredientId)
      requires Valid()
      modifies this
      ensures Valid()
      ensures id !in old(db.ingredients)
      ensures db == old(db).(ingredients := old(db.ingredients)[id := ingredient],
                             nextIngredient := old(db.nextIngredient) + 1)
    {
      id := db.nextIngredient;
      db := db.(ingredients := db.ingredients[id := ingredient], nextIngredient := id + 1);
    }

    /** `Recipe.objects.create(...)`: a row with a fresh primary key and no tags or lines yet. */
    method InsertRecipe(name: string, image: string, text: string, cookingTime: int, author: UserId, pubDate: int)
      returns (id: RecipeId)
      requires Valid()
      requires author in db.users && cookingTime >= 0
      modifies this
      ensures Valid()
      ensures id !in RecipeIds(old(db.recipes))
      ensures db == old(db).(recipes := old(db.recipes) + [Recipe(id, name, image, text, cookingTime, author, pubDate)],
                             nextRecipe := old(db.nextRecipe) + 1)
    {
      id := db.nextRecipe;
      var row := Recipe(id, name, image, text, cookingTime, author, pubDate);
      var rs := db.recipes + [row];
      assert UniqueBy(rs, RecipeKey) by {
        forall i, j | 0 <= i < j < |rs| ensures RecipeKey(rs[i]) != RecipeKey(rs[j]) {
          if j == |rs| - 1 {
            assert rs[i] in db.recipes;
          } else {
            assert rs[i] == db.recipes[i] && rs[j] == db.recipes[j];
          }
        }
      }
      assert RecipeIds(rs) == RecipeIds(db.recipes) + {id};
      db := db.(recipes := rs, nextRecipe := id + 1);
    }

    /** `instance.save()`: writes the columns of an existing row. */
    method SaveRecipe(row: Recipe)
      requires Valid()
      requires row.id in RecipeIds(db.recipes)
      requires row.author in db.users && row.cookingTime >= 0
      modifies this
      ensures Valid()
      ensures db == old(db).(recipes := old(db.recipes)[IndexOf(old(db.recipes), row.id) := row])
      ensures RecipeIds(db.recipes) == RecipeIds(old(db.recipes))
    {
      var recipes := db.recipes;
      var i := IndexOf(recipes, row.id);
      var rs := recipes[i := row];
      assert UniqueBy(rs, RecipeKey) by {
        forall a, b | 0 <= a < b < |rs| ensures RecipeKey(rs[a]) != RecipeKey(rs[b]) {
          assert RecipeKey(rs[a]) == RecipeKey(recipes[a]) && RecipeKey(rs[b]) == RecipeKey(recipes[b]);
        }
      }
      assert RecipeIds(rs) == RecipeIds(recipes) by {
        forall k | k in RecipeIds(recipes) ensures k in RecipeIds(rs) {
          var r :| r in recipes && r.id == k;
          var m :| 0 <= m < |recipes| && recipes[m] == r;
          assert rs[m].id == k;
        }
      }
      db := db.(recipes := rs);
    }

    /** `instance.tags.clear()`. */
    method ClearTags(id: RecipeId)
      requires Valid()
      modifies this
      ensures Valid()
      ensures db == old(db).(recipeTags := set l | l in old(db.recipeTags) && l.recipe != id)
      ensures TagsOf(id, db.recipeTags) == {}
    {
      db := db.(recipeTags := set l | l in db.recipeTags && l.recipe != id);
    }

    /** `instance.tags.add(*tags)`; a pair already linked is not added twice. */
    method AddTags(id: RecipeId, ts: set<TagId>)
      requires Valid()
      requires id in RecipeIds(db.recipes) && ts <= db.tags.Keys
      modifies this
      ensures Valid()
      ensures db == old(db).(recipeTags := old(db.recipeTags) + set t | t in ts :: RecipeTag(id, t))
      ensures TagsOf(id, db.recipeTags) == TagsOf(id, old(db.recipeTags)) + ts
    {
      var added := set t | t in ts :: RecipeTag(id, t);
      assert forall t :: t in ts ==> RecipeTag(id, t) in added;
      db := db.(recipeTags := db.recipeTags + added);
    }

    /** `instance.ingredients.clear()`: deletes the recipe's RecipeIngredient rows. */
    method ClearLines(id: RecipeId)
      requires Valid()
      modifies this
      ensures Valid()
      ensures db == old(db).(lines := Filter(old(db.lines), (l: RecipeIngredient) => l.recipe != id))
    {
      db := db.(lines := Filter(db.lines, (l: RecipeIngredient) => l.recipe != id));
    }

    /** `RecipeIngredient.objects.bulk_create(batch)`: appends the batch in order. */
    method BulkCreateLines(batch: seq<RecipeIngredient>)
      requires Valid()
      requires LinesValid(batch, RecipeIds(db.recipes), db.ingredients.Keys)
      modifies this
      ensures Valid()
      ensures db == old(db).(lines := old(db.lines) + batch)
    {
      db := db.(lines := db.lines + batch);
    }

    /** Inserts a Follow row; a row that breaks a constraint raises an integrity error and is not written. */
    method InsertFollow(row: Follow) returns (ok: bool)
      requires Valid()
      modifies this
      ensures Valid()
      ensures ok <==> row !in old(db.follows) && row.user != row.author && row.user in db.users && row.author in db.users
      ensures db == if ok then old(db).(follows := old(db.follows) + [row]) else old(db)
    {
      ok := row !in db.follows && row.user != row.author && row.user in db.users && row.author in db.users;
      if ok {
        AppendKeepsDistinct(db.follows, row);
        db := db.(follows := db.follows + [row]);
      }
    }

    method InsertCart(row: UserRecipe) returns (ok: bool)
      requires Valid()
      modifies this
      ensures Valid()
      ensures ok <==> row !in old(db.carts) && row.user in db.users && row.recipe in RecipeIds(db.recipes)
      ensures db == if ok then old(db).(carts := old(db.carts) + [row]) else old(db)
    {
      ok := row !in db.carts && row.user in db.users && row.recipe in RecipeIds(db.recipes);
      if ok {
        AppendKeepsDistinct(db.carts, row);
        db := db.(carts := db.carts + [row]);
      }
    }

    method InsertFavorite(row: UserRecipe) returns (ok: bool)
      requires Valid()
      modifies this
      ensures Valid()
      ensures ok <==> row !in old(db.favorites) && row.user in db.users && row.recipe in RecipeIds(db.recipes)
      ensures db == if ok then old(db).(favorites := old(db.favorites) + [row]) else old(db)
    {
      ok := row !in db.favorites && row.user in db.users && row.recipe in RecipeIds(db.recipes);
      if ok {
        AppendKeepsDistinct(db.favorites, row);
        db := db.(favorites := db.favorites + [row]);
      }
    }

    /** Deletes a recipe and, by CASCADE, everything that refers to it. */
    method DeleteRecipe(id: RecipeId)
      requires Valid()
      modifies this
      ensures Valid()
      ensures db == WithoutRecipe(old(db), id)
    {
      DeleteRecipePreserves(db, id);
      db := WithoutRecipe(db, id);
    }

    /** Deletes a user and, by CASCADE, their recipes and every row that refers to them. */
    method DeleteUser(u: UserId)
      requires Valid()
      modifies this
      ensures Valid()
      ensures db == WithoutUser(old(db), u)
    {
      DeleteUserPreserves(db, u);
      db := WithoutUser(db, u);
    }

    /** Deletes an ingredient and, by CASCADE, the lines that use it. */
    method DeleteIngredient(i: IngredientId)
      requires Valid()
      modifies this
      ensures Valid()
      ensures db == WithoutIngredient(old(db), i)
    {
      DeleteIngredientPreserves(db, i);
      db := WithoutIngredient(db, i);
    }

    /** Deletes a tag and its links to recipes. */
    method DeleteTag(t: TagId)
      requires Valid()
      modifies this
      ensures Valid()
      ensures db == WithoutTag(old(db), t)
    {
      DeleteTagPreserves(db, t);
      db := WithoutTag(db, t);
    }
  }

  /** Appending a row that is not yet present keeps a table free of duplicates. */
  lemma AppendKeepsDistinct<T>(s: seq<T>, x: T)
    requires Distinct(s) && x !in s
    ensures Distinct(s + [x])
  {
    var t := s + [x];
    forall i, j | 0 <= i < j < |t| ensures t[i] != t[j] {
      if j == |s| {
        assert t[i] == s[i];
      } else {
        assert t[i] == s[i] && t[j] == s[j];
      }
    }
  }
}
