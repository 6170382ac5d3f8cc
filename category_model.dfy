/**
 * The Category document: required name (unique), description, image and
 * author, an optional permalink under a unique index, and the moderation
 * status defaulting to pending.
 */
module CategoryModel {
  import opened Wrappers
  import opened Collections
  import opened Moderation

  datatype Category = Category(
    id: Id,
    permalink: Option<string>,
    name: string,
    description: string,
    image: string,
    status: Status,
    author: Id)

  /**
   * Category.create with the paths the handler sets: name, description, image
   * and author; permalink is never passed and status takes its default.
   * None is a validation error.
   */
  function NewCategory(id: Id, name: string, description: string, image: string, author: Id): (r: Option<Category>)
    ensures r.Some? <==> name != "" && description != "" && image != ""
    ensures r.Some? ==> r.value == Category(id, None, name, description, image, Pending, author)
  {
    if name != "" && description != "" && image != "" then
      Some(Category(id, None, name, description, image, DefaultStatus, author))
    else
      None
  }

  /**
   * The two unique indexes. The permalink index is not sparse, so a missing
   * permalink is indexed as null and two categories without one collide.
   */
  predicate UniqueCategoryKeys(categories: map<Id, Category>) {
    forall i, j :: i in categories && j in categories && i != j ==>
      categories[i].name != categories[j].name && categories[i].permalink != categories[j].permalink
  }

  /** A new category would violate a unique index of the collection. */
  predicate ClashesWith(categories: map<Id, Category>, c: Category) {
    exists id :: id in categories && (categories[id].name == c.name || categories[id].permalink == c.permalink)
  }

  /** Inserting a category under a fresh id that clashes with none keeps both indexes unique. */
  lemma StoreKeepsUniqueCategoryKeys(categories: map<Id, Category>, id: Id, c: Category)
    requires UniqueCategoryKeys(categories)
    requires id !in categories && !ClashesWith(categories, c)
    ensures UniqueCategoryKeys(categories[id := c])
  {
  }
}
