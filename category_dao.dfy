/** The `categories` table and the queries of its DAO. */
module CategoryDao {
  import opened Wrappers
  import opened Entities
  import opened TableOps
  import Seqs

  function CategoryKey(c: CategoryEntity): string { c.id }

  predicate CategoryConflict(row: CategoryEntity, x: CategoryEntity) { row.id == x.id }

  ghost predicate CategoriesValid(t: seq<CategoryEntity>) { Seqs.UniqueBy(t, CategoryKey) }

  function CategoryHasId(id: string): CategoryEntity -> bool { (c: CategoryEntity) => c.id == id }
  function CategoryNotId(id: string): CategoryEntity -> bool { (c: CategoryEntity) => c.id != id }
  function CategoryNamed(name: string): CategoryEntity -> bool { (c: CategoryEntity) => c.name == name }

  /** `ORDER BY sort_order ASC`. */
  predicate SortsBefore(a: CategoryEntity, b: CategoryEntity) { a.sortOrder <= b.sortOrder }

  /** `getAllCategories()` / `getAllCategoriesSync()`. */
  function AllCategories(t: seq<CategoryEntity>): seq<CategoryEntity> {
    Seqs.SortBy(t, SortsBefore)
  }

  /** `getCategoryById(id)`. */
  function CategoryById(t: seq<CategoryEntity>, id: string): Option<CategoryEntity> {
    Seqs.First(t, CategoryHasId(id))
  }

  /** `getCategoryByName(name)`: `name` has no unique index, so Room returns the first row in rowid order. */
  function CategoryByName(t: seq<CategoryEntity>, name: string): Option<CategoryEntity> {
    Seqs.First(t, CategoryNamed(name))
  }

  /** `insertCategory(c)`. */
  function ReplaceCategory(t: seq<CategoryEntity>, c: CategoryEntity): seq<CategoryEntity> {
    Replace(t, c, CategoryConflict)
  }

  /** `insertCategories(cs)`. */
  function ReplaceCategories(t: seq<CategoryEntity>, cs: seq<CategoryEntity>): seq<CategoryEntity> {
    ReplaceAll(t, cs, CategoryConflict)
  }

  /** `deleteCategory(id)`. */
  function DeleteCategory(t: seq<CategoryEntity>, id: string): seq<CategoryEntity> {
    Seqs.Filter(t, CategoryNotId(id))
  }

  // ---------------------------------------------------------------------
  // properties

  /** `getAllCategories` lists every row once, in ascending `sort_order`. */
  lemma AllCategoriesOrdered(t: seq<CategoryEntity>)
    ensures multiset(AllCategories(t)) == multiset(t)
    ensures forall i, j :: 0 <= i < j < |AllCategories(t)| ==> AllCategories(t)[i].sortOrder <= AllCategories(t)[j].sortOrder
  {
    Seqs.SortBySorted(t, SortsBefore);
  }

  /** The lookups find a row with that id (name) exactly when one exists. */
  lemma CategoryLookupsMean(t: seq<CategoryEntity>, id: string, name: string)
    ensures CategoryById(t, id).None? <==> forall i :: 0 <= i < |t| ==> t[i].id != id
    ensures CategoryById(t, id).Some? ==> CategoryById(t, id).value in t && CategoryById(t, id).value.id == id
    ensures CategoryByName(t, name).None? <==> forall i :: 0 <= i < |t| ==> t[i].name != name
    ensures CategoryByName(t, name).Some? ==> CategoryByName(t, name).value in t && CategoryByName(t, name).value.name == name
  {
  }

  /** After `insertCategory(c)` the table stays keyed by id and `getCategoryById(c.id)` is `c`. */
  lemma ReplaceCategoryUpserts(t: seq<CategoryEntity>, c: CategoryEntity, id: string)
    requires CategoriesValid(t)
    ensures CategoriesValid(ReplaceCategory(t, c))
    ensures CategoryById(ReplaceCategory(t, c), c.id) == Some(c)
    ensures id != c.id ==> CategoryById(ReplaceCategory(t, c), id) == CategoryById(t, id)
  {
    ReplaceUnique(t, c, CategoryConflict, CategoryKey);
    var r := ReplaceCategory(t, c);
    Seqs.FirstIsLast(r, CategoryHasId(c.id));
    if id != c.id {
      ReplaceKeepsOthers(t, c, CategoryConflict, CategoryHasId(id));
      Seqs.FirstIsHeadOfFilter(t, CategoryHasId(id));
      Seqs.FirstIsHeadOfFilter(r, CategoryHasId(id));
    }
  }

  /** `insertCategories` keeps the table keyed by id. */
  lemma {:induction false} ReplaceCategoriesValid(t: seq<CategoryEntity>, cs: seq<CategoryEntity>)
    requires CategoriesValid(t)
    ensures CategoriesValid(ReplaceCategories(t, cs))
  {
    if cs != [] {
      ReplaceCategoriesValid(t, cs[..|cs| - 1]);
      ReplaceUnique(ReplaceCategories(t, cs[..|cs| - 1]), cs[|cs| - 1], CategoryConflict, CategoryKey);
    }
  }

  /** `insertCategories(cs)` is additive: every inserted id is present
      afterwards, and a row whose id was not inserted is kept. */
  lemma ReplaceCategoriesAdditive(t: seq<CategoryEntity>, cs: seq<CategoryEntity>)
    ensures forall j :: 0 <= j < |cs| ==> exists r :: r in ReplaceCategories(t, cs) && r.id == cs[j].id
    ensures forall i :: 0 <= i < |t| && (forall j :: 0 <= j < |cs| ==> cs[j].id != t[i].id) ==>
      t[i] in ReplaceCategories(t, cs)
  {
    ReplaceAllContains(t, cs, CategoryConflict, CategoryKey);
    assert forall j :: 0 <= j < |cs| ==> exists r :: r in ReplaceAll(t, cs, CategoryConflict) && CategoryKey(r) == CategoryKey(cs[j]);
    forall i | 0 <= i < |t| && (forall j :: 0 <= j < |cs| ==> cs[j].id != t[i].id)
      ensures t[i] in ReplaceCategories(t, cs)
    {
      var m := CategoryHasId(t[i].id);
      ReplaceAllKeepsOthers(t, cs, CategoryConflict, m);
      Seqs.FilterMembers(t, m, t[i]);
      Seqs.FilterMembers(ReplaceCategories(t, cs), m, t[i]);
    }
  }

  /** `deleteCategory(id)` removes that row and keeps every other. */
  lemma DeleteCategoryEffect(t: seq<CategoryEntity>, id: string, x: CategoryEntity)
    ensures CategoryById(DeleteCategory(t, id), id).None?
    ensures x in DeleteCategory(t, id) <==> x in t && x.id != id
  {
    Seqs.FilterMembers(t, CategoryNotId(id), x);
  }

  /** `deleteCategory(id)` keeps the table keyed by id. */
  lemma DeleteCategoryValid(t: seq<CategoryEntity>, id: string)
    requires CategoriesValid(t)
    ensures CategoriesValid(DeleteCategory(t, id))
  {
    Seqs.FilterUnique(t, CategoryNotId(id), CategoryKey);
  }
}
