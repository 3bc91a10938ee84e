/**
 * The category controller: list the categories split by availability,
 * show one, create one, rename one, and "delete" one, which only makes it
 * unavailable.
 */
module CategoryController {
  import opened Models

  /** The two lists of the category listing. */
  datatype Listing = Listing(available: map<CategoryId, Category>, unavailable: map<CategoryId, Category>)

  /**
   * The category listing: the available categories and the unavailable
   * ones. The two lists share no category, together hold every category,
   * and each category appears with its own row.
   */
  function Index(categories: map<CategoryId, Category>): (r: Listing)
    ensures r.available.Keys !! r.unavailable.Keys
    ensures r.available.Keys + r.unavailable.Keys == categories.Keys
    ensures forall c :: c in r.available ==> r.available[c] == categories[c] && categories[c].isAvailable
    ensures forall c :: c in r.unavailable ==> r.unavailable[c] == categories[c] && !categories[c].isAvailable
  {
    Listing(
      map c | c in categories && categories[c].isAvailable :: categories[c],
      map c | c in categories && !categories[c].isAvailable :: categories[c])
  }

  /**
   * One category, available or not. A missing id makes the lookup throw,
   * and the action's catch-all answers with a server error.
   */
  function Show(categories: map<CategoryId, Category>, id: CategoryId): (r: Result<Category>)
    ensures r.Ok? <==> id in categories
    ensures r.Ok? ==> r.value == categories[id]
    ensures r.Err? ==> r.error == ServerError
  {
    if id in categories then Ok(categories[id]) else Err(ServerError)
  }

  /** The length rule on a category name: a string of 3 to 100 characters. */
  predicate NameLengthOk(name: string)
  {
    3 <= |name| <= 100
  }

  /** Some category other than `except` already carries `name`. */
  predicate NameTaken(categories: map<CategoryId, Category>, name: string, except: Option<CategoryId>)
  {
    exists c :: c in categories && categories[c].name == name && except != Some(c)
  }

  /** The rules `store` puts on the name: present, a string of 3 to 100 characters, used by no category. */
  predicate StoreNameOk(categories: map<CategoryId, Category>, name: Param<string>): (r: bool)
    ensures !name.Given? ==> !r
    ensures name.Given? ==>
      (r <==> 3 <= |name.value| <= 100 && forall c :: c in categories ==> categories[c].name != name.value)
  {
    name.Given? && NameLengthOk(name.value) && !NameTaken(categories, name.value, None)
  }

  /**
   * The rules `update` puts on the name of category `id`: it may be left
   * out; if sent it is a string of 3 to 100 characters used by no other
   * category.
   */
  predicate UpdateNameOk(categories: map<CategoryId, Category>, id: CategoryId, name: Param<string>): (r: bool)
    ensures name.Absent? ==> r
    ensures name.Malformed? ==> !r
    ensures name.Given? ==>
      (r <==> 3 <= |name.value| <= 100 && forall c :: c in categories && c != id ==> categories[c].name != name.value)
  {
    match name
    case Absent => true
    case Malformed => false
    case Given(n) => NameLengthOk(n) && !NameTaken(categories, n, Some(id))
  }

  /** The categories table after category `id` is soft-deleted: only its flag changes, to unavailable. */
  function SoftDeleted(categories: map<CategoryId, Category>, id: CategoryId): (r: map<CategoryId, Category>)
    requires id in categories
    ensures r.Keys == categories.Keys
    ensures !r[id].isAvailable && r[id].name == categories[id].name
    ensures forall c :: c in categories && c != id ==> r[c] == categories[c]
  {
    categories[id := categories[id].(isAvailable := false)]
  }

  /**
   * Create a category. A name that is missing, of the wrong length or
   * already used is rejected and nothing changes. Otherwise a new,
   * available category with that name is added under the next free id.
   */
  method Store(db: Database, name: Param<string>) returns (r: Result<CategoryId>)
    requires db.Valid()
    modifies db`categories, db`nextCategoryId
    ensures db.Valid()
    ensures !StoreNameOk(old(db.categories), name) ==>
      r == Err(Invalid) && db.categories == old(db.categories) && db.nextCategoryId == old(db.nextCategoryId)
    ensures StoreNameOk(old(db.categories), name) ==>
      && r == Ok(old(db.nextCategoryId))
      && r.value !in old(db.categories)
      && db.categories == old(db.categories)[r.value := Category(name.value, true)]
      && db.nextCategoryId == old(db.nextCategoryId) + 1
  {
    if !StoreNameOk(db.categories, name) {
      return Err(Invalid);
    }
    var id := db.nextCategoryId;
    db.categories := db.categories[id := Category(name.value, true)];
    db.nextCategoryId := id + 1;
    r := Ok(id);
  }

  /**
   * Rename category `id`. The name is validated first: a malformed name, a
   * name of the wrong length, or one another category uses is rejected.
   * Then a missing category, or a request without a name, makes the action
   * throw and answer with a server error. Either way nothing changes on
   * failure. On success only the category's name changes.
   */
  method Update(db: Database, id: CategoryId, name: Param<string>) returns (r: Outcome)
    requires db.Valid()
    modifies db`categories
    ensures db.Valid()
    ensures !UpdateNameOk(old(db.categories), id, name) ==> r == Failed(Invalid) && db.categories == old(db.categories)
    ensures UpdateNameOk(old(db.categories), id, name) && (id !in old(db.categories) || name.Absent?) ==>
      r == Failed(ServerError) && db.categories == old(db.categories)
    ensures UpdateNameOk(old(db.categories), id, name) && id in old(db.categories) && name.Given? ==>
      r == Done && db.categories == old(db.categories)[id := old(db.categories)[id].(name := name.value)]
  {
    if !UpdateNameOk(db.categories, id, name) {
      return Failed(Invalid);
    }
    if id !in db.categories || !name.Given? {
      return Failed(ServerError);
    }
    var renamed := db.categories[id].(name := name.value);
    db.categories := db.categories[id := renamed];
    r := Done;
    assert forall c :: c in db.categories && c != id ==> db.categories[c].name != name.value;
  }

  /**
   * Soft-delete category `id`: it stays in the table, unavailable. A
   * missing category makes the action throw; it answers with a server
   * error and changes nothing.
   */
  method Destroy(db: Database, id: CategoryId) returns (r: Outcome)
    requires db.Valid()
    modifies db`categories
    ensures db.Valid()
    ensures id !in old(db.categories) ==> r == Failed(ServerError) && db.categories == old(db.categories)
    ensures id in old(db.categories) ==> r == Done && db.categories == SoftDeleted(old(db.categories), id)
  {
    if id !in db.categories {
      return Failed(ServerError);
    }
    db.categories := SoftDeleted(db.categories, id);
    r := Done;
  }

  /** A soft-deleted category is listed among the unavailable ones and no longer among the available ones. */
  lemma DestroyedIsUnavailable(categories: map<CategoryId, Category>, id: CategoryId)
    requires id in categories
    ensures id in Index(SoftDeleted(categories, id)).unavailable
    ensures id !in Index(SoftDeleted(categories, id)).available
  {
  }

  /** Deleting a category twice leaves the table as deleting it once. */
  lemma DestroyIdempotent(categories: map<CategoryId, Category>, id: CategoryId)
    requires id in categories
    ensures SoftDeleted(SoftDeleted(categories, id), id) == SoftDeleted(categories, id)
  {
  }

  /** Deleting a category keeps every category, so the listing still covers the same ids. */
  lemma DestroyKeepsRows(categories: map<CategoryId, Category>, id: CategoryId)
    requires id in categories
    ensures var listing := Index(SoftDeleted(categories, id));
      listing.available.Keys + listing.unavailable.Keys == categories.Keys
  {
  }

  /** Soft-deleting never makes two categories share a name. */
  lemma SoftDeleteKeepsUnique(categories: map<CategoryId, Category>, id: CategoryId)
    requires id in categories && UniqueNames(categories)
    ensures UniqueNames(SoftDeleted(categories, id))
  {
  }

  /** A category may keep its own name on update, but can never take another category's name. */
  lemma UpdateNameRules(categories: map<CategoryId, Category>, id: CategoryId, other: CategoryId)
    requires id in categories && other in categories && other != id
    requires NameLengthOk(categories[id].name)
    requires UniqueNames(categories)
    ensures UpdateNameOk(categories, id, Given(categories[id].name))
    ensures !UpdateNameOk(categories, id, Given(categories[other].name))
  {
  }

  /** `store` rejects a name an existing category has, whether that category is available or not. */
  lemma StoreRejectsUsedName(categories: map<CategoryId, Category>, id: CategoryId)
    requires id in categories
    ensures !StoreNameOk(categories, Given(categories[id].name))
  {
  }
}
