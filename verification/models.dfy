/**
  The gallery's two records, `Category` and `ImageItem`, the constraints
  their fields declare, the default ordering of categories, and what the
  database does to dependants when a user or a category is deleted
  (`on_delete=SET_NULL`).
*/
module Models {
  import opened Common
  import opened Ordering

  /** Primary keys are auto-incremented and start at 1. */
  type UserId = nat
  type CategoryId = nat
  type ImageId = nat

  /** `uploaded_at`: only its order matters here. */
  type Timestamp = int

  /** The stored file behind an `ImageField`, as an opaque path. */
  type ImageFile = string

  const CategoryNameMaxLength: nat := 50
  const ImageTitleMaxLength: nat := 120

  datatype Category = Category(name: string, createdBy: Option<UserId>)

  datatype ImageItem = ImageItem(
    title: string,
    createdBy: Option<UserId>,
    category: Option<CategoryId>,
    image: ImageFile,
    uploadedAt: Timestamp)

  /**
    The three tables. `nextCategoryPk` and `nextImagePk` are the
    auto-increment counters: every existing key is below them.
  */
  datatype Store = Store(
    users: set<UserId>,
    categories: map<CategoryId, Category>,
    images: map<ImageId, ImageItem>,
    nextCategoryPk: nat,
    nextImagePk: nat)

  /** A nullable foreign key to the user table is null or names a user. */
  predicate OwnerExists(users: set<UserId>, owner: Option<UserId>) {
    owner.Some? ==> owner.value in users
  }

  /** `name` is `unique=True`: no two categories share a name. */
  ghost predicate UniqueNames(categories: map<CategoryId, Category>) {
    forall a, b :: a in categories && b in categories && a != b ==>
      categories[a].name != categories[b].name
  }

  /**
    What the database guarantees of its rows: keys below the counters,
    the `max_length` of `name` and `title`, unique category names, and
    foreign keys that are null or point at an existing row.
  */
  ghost predicate WellFormed(s: Store) {
    && 0 < s.nextCategoryPk && 0 < s.nextImagePk
    && (forall c :: c in s.categories ==>
          && 0 < c < s.nextCategoryPk
          && |s.categories[c].name| <= CategoryNameMaxLength
          && OwnerExists(s.users, s.categories[c].createdBy))
    && UniqueNames(s.categories)
    && (forall i :: i in s.images ==>
          && 0 < i < s.nextImagePk
          && |s.images[i].title| <= ImageTitleMaxLength
          && OwnerExists(s.users, s.images[i].createdBy)
          && (s.images[i].category.Some? ==> s.images[i].category.value in s.categories))
  }

  // ---------------------------------------------------------------------
  // Ordering categories by name

  /** Lexicographic order on names, character by character. */
  predicate NameLe(a: string, b: string)
    decreases |a|
  {
    if |a| == 0 then true
    else if |b| == 0 then false
    else if a[0] != b[0] then a[0] < b[0]
    else NameLe(a[1..], b[1..])
  }

  lemma {:induction false} NameLeTotal(a: string, b: string)
    ensures NameLe(a, b) || NameLe(b, a)
    decreases |a|
  {
    if |a| > 0 && |b| > 0 && a[0] == b[0] {
      NameLeTotal(a[1..], b[1..]);
    }
  }

  lemma {:induction false} NameLeTransitive(a: string, b: string, c: string)
    requires NameLe(a, b) && NameLe(b, c)
    ensures NameLe(a, c)
    decreases |a|
  {
    if |a| > 0 && |b| > 0 && |c| > 0 && a[0] == b[0] && b[0] == c[0] {
      NameLeTransitive(a[1..], b[1..], c[1..]);
    }
  }

  lemma {:induction false} NameLeAntisymmetric(a: string, b: string)
    requires NameLe(a, b) && NameLe(b, a)
    ensures a == b
    decreases |a|
  {
    if |a| > 0 && |b| > 0 {
      NameLeAntisymmetric(a[1..], b[1..]);
      assert a == [a[0]] + a[1..] && b == [b[0]] + b[1..];
    }
  }

  /** The name a category key sorts by (keys outside the table sort first). */
  function NameOf(categories: map<CategoryId, Category>, c: CategoryId): string {
    if c in categories then categories[c].name else ""
  }

  /** `Meta.ordering = ["name"]` as a relation on category keys. */
  function ByName(categories: map<CategoryId, Category>): (le: (CategoryId, CategoryId) -> bool) {
    (a: CategoryId, b: CategoryId) => NameLe(NameOf(categories, a), NameOf(categories, b))
  }

  lemma ByNameIsTotalPreorder(categories: map<CategoryId, Category>)
    ensures TotalPreorder(ByName(categories))
  {
    var le := ByName(categories);
    forall a, b ensures le(a, b) || le(b, a) {
      NameLeTotal(NameOf(categories, a), NameOf(categories, b));
    }
    forall a, b, c | le(a, b) && le(b, c) ensures le(a, c) {
      NameLeTransitive(NameOf(categories, a), NameOf(categories, b), NameOf(categories, c));
    }
  }

  /**
    The categories satisfying `keep`, in the default order: by name. As
    names are unique, each name is strictly before the next.
  */
  function CategoriesWhere(s: Store, keep: Category -> bool): (r: seq<CategoryId>)
    requires WellFormed(s)
    ensures forall c :: c in r <==> c in s.categories && keep(s.categories[c])
    ensures Distinct(r)
    ensures forall i, j :: 0 <= i < j < |r| ==>
      NameLe(s.categories[r[i]].name, s.categories[r[j]].name) &&
      s.categories[r[i]].name != s.categories[r[j]].name
  {
    var scan := KeysWhere(s.categories, s.nextCategoryPk, keep);
    IncreasingIsDistinct(scan);
    ByNameIsTotalPreorder(s.categories);
    var r := SortBy(scan, ByName(s.categories));
    SameMembers(r, scan);
    r
  }

  // ---------------------------------------------------------------------
  // on_delete=SET_NULL

  /**
    Deleting a category keeps every image; images that were filed under it
    become uncategorised, and nothing else changes.
  */
  function DeleteCategory(s: Store, pk: CategoryId): (r: Store)
    ensures r.categories == s.categories - {pk}
    ensures r.images.Keys == s.images.Keys
    ensures forall i :: i in r.images ==> r.images[i].category != Some(pk)
    ensures forall i :: i in r.images && s.images[i].category == Some(pk) ==> r.images[i].category.None?
    ensures forall i :: i in r.images && s.images[i].category != Some(pk) ==> r.images[i] == s.images[i]
    ensures forall i :: i in r.images ==> r.images[i] == s.images[i].(category := r.images[i].category)
    ensures r.users == s.users
    ensures r.nextCategoryPk == s.nextCategoryPk && r.nextImagePk == s.nextImagePk
  {
    s.(categories := s.categories - {pk},
       images := map i | i in s.images ::
         if s.images[i].category == Some(pk) then s.images[i].(category := None) else s.images[i])
  }

  /**
    Deleting a user keeps every category and image; those the user created
    lose their creator, and nothing else changes.
  */
  function DeleteUser(s: Store, uid: UserId): (r: Store)
    ensures r.users == s.users - {uid}
    ensures r.categories.Keys == s.categories.Keys && r.images.Keys == s.images.Keys
    ensures forall c :: c in r.categories ==>
      r.categories[c].createdBy != Some(uid) &&
      r.categories[c].name == s.categories[c].name &&
      (s.categories[c].createdBy == Some(uid) ==> r.categories[c].createdBy.None?) &&
      (s.categories[c].createdBy != Some(uid) ==> r.categories[c] == s.categories[c])
    ensures forall i :: i in r.images ==>
      r.images[i].createdBy != Some(uid) &&
      r.images[i] == s.images[i].(createdBy := r.images[i].createdBy) &&
      (s.images[i].createdBy == Some(uid) ==> r.images[i].createdBy.None?) &&
      (s.images[i].createdBy != Some(uid) ==> r.images[i] == s.images[i])
    ensures r.nextCategoryPk == s.nextCategoryPk && r.nextImagePk == s.nextImagePk
  {
    Store(
      s.users - {uid},
      map c | c in s.categories ::
        if s.categories[c].createdBy == Some(uid) then s.categories[c].(createdBy := None) else s.categories[c],
      map i | i in s.images ::
        if s.images[i].createdBy == Some(uid) then s.images[i].(createdBy := None) else s.images[i],
      s.nextCategoryPk,
      s.nextImagePk)
  }

  /** Nulling the dangling category references keeps the store consistent. */
  lemma DeleteCategoryWellFormed(s: Store, pk: CategoryId)
    requires WellFormed(s)
    ensures WellFormed(DeleteCategory(s, pk))
  {
  }

  /** Nulling the dangling creator references keeps the store consistent. */
  lemma DeleteUserWellFormed(s: Store, uid: UserId)
    requires WellFormed(s)
    ensures WellFormed(DeleteUser(s, uid))
  {
  }
}
