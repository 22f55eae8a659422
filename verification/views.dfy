/**
  The gallery's views: who may manage a category or an image, the
  read-side queries (image list, category list, slideshow), and the
  mutating views as methods of `Gallery`, the in-memory store they act on.
*/
module Views {
  import opened Common
  import opened Ordering
  import opened Models

  // ---------------------------------------------------------------------
  // Requesters and permissions

  /** The two model permissions `has_perm` is asked about. */
  datatype Permission = CanManageAllCategories | CanManageAllImages

  /** An authenticated user with the permissions `has_perm` grants them. */
  datatype User = User(id: UserId, perms: set<Permission>)

  datatype Requester = Anonymous | Authenticated(user: User)

  predicate CanManageCategory(user: User, category: Category) {
    CanManageAllCategories in user.perms || category.createdBy == Some(user.id)
  }

  predicate CanManageImage(user: User, image: ImageItem) {
    CanManageAllImages in user.perms || image.createdBy == Some(user.id)
  }

  // ---------------------------------------------------------------------
  // Read side

  /** Image keys satisfying `keep`, newest first. */
  function ImagesWhere(s: Store, keep: ImageItem -> bool): (r: seq<ImageId>)
    requires WellFormed(s)
    ensures forall i :: i in r <==> i in s.images && keep(s.images[i])
    ensures Distinct(r)
    ensures forall i, j :: 0 <= i < j < |r| ==> s.images[r[i]].uploadedAt >= s.images[r[j]].uploadedAt
  {
    var scan := KeysWhere(s.images, s.nextImagePk, keep);
    IncreasingIsDistinct(scan);
    var le := NewestFirst(s.images);
    assert TotalPreorder(le);
    var r := SortBy(scan, le);
    SameMembers(r, scan);
    r
  }

  /** `order_by("-uploaded_at")` as a relation on image keys. */
  function NewestFirst(images: map<ImageId, ImageItem>): (ImageId, ImageId) -> bool {
    (a: ImageId, b: ImageId) => UploadedAt(images, a) >= UploadedAt(images, b)
  }

  function UploadedAt(images: map<ImageId, ImageItem>, i: ImageId): Timestamp {
    if i in images then images[i].uploadedAt else 0
  }

  datatype ImageListPage = ImageListPage(images: seq<ImageId>, categories: seq<CategoryId>)

  /**
    The public image list: every image, or only those filed under the
    selected category when one is given, newest first; beside it every
    category by name. `selected` is None when the `category` query
    parameter is absent or empty.
  */
  function ImageList(s: Store, selected: Option<CategoryId>): (page: ImageListPage)
    requires WellFormed(s)
    ensures forall i :: i in page.images <==>
      i in s.images && (selected.None? || s.images[i].category == selected)
    ensures Distinct(page.images)
    ensures forall i, j :: 0 <= i < j < |page.images| ==>
      s.images[page.images[i]].uploadedAt >= s.images[page.images[j]].uploadedAt
    ensures forall c :: c in page.categories <==> c in s.categories
    ensures Distinct(page.categories)
    ensures forall i, j :: 0 <= i < j < |page.categories| ==>
      NameLe(s.categories[page.categories[i]].name, s.categories[page.categories[j]].name) &&
      s.categories[page.categories[i]].name != s.categories[page.categories[j]].name
  {
    var images :=
      if selected.Some? then ImagesWhere(s, (img: ImageItem) => img.category == selected)
      else ImagesWhere(s, (img: ImageItem) => true);
    ImageListPage(images, CategoriesWhere(s, (c: Category) => true))
  }

  /** What `category_list` renders, or the redirect to the login page for an anonymous requester. */
  datatype CategoryPage =
    | LoginRedirect
    | CategoryPage(categories: seq<CategoryId>, canManageAll: bool)

  /**
    The category page (login required): all categories for a user who may
    manage all categories, otherwise exactly the ones they created; ordered
    by name.
  */
  function CategoryList(s: Store, req: Requester): (page: CategoryPage)
    requires WellFormed(s)
    ensures page.LoginRedirect? <==> req.Anonymous?
    ensures page.CategoryPage? ==> page.canManageAll == (CanManageAllCategories in req.user.perms)
    ensures page.CategoryPage? ==> forall c :: c in page.categories <==>
      c in s.categories && (CanManageAllCategories in req.user.perms || s.categories[c].createdBy == Some(req.user.id))
    ensures page.CategoryPage? ==> Distinct(page.categories)
    ensures page.CategoryPage? ==> forall i, j :: 0 <= i < j < |page.categories| ==>
      NameLe(s.categories[page.categories[i]].name, s.categories[page.categories[j]].name) &&
      s.categories[page.categories[i]].name != s.categories[page.categories[j]].name
  {
    if req.Anonymous? then LoginRedirect
    else
      var user := req.user;
      var manageAll := CanManageAllCategories in user.perms;
      var categories :=
        if manageAll then CategoriesWhere(s, (c: Category) => true)
        else CategoriesWhere(s, (c: Category) => c.createdBy == Some(user.id));
      CategoryPage(categories, manageAll)
  }

  /**
    The category page lists exactly the categories the user may manage: its
    filter and `CanManageCategory` are the same rule.
  */
  lemma CategoryListIsManageable(s: Store, user: User)
    requires WellFormed(s)
    ensures forall c :: c in CategoryList(s, Authenticated(user)).categories <==>
      c in s.categories && CanManageCategory(user, s.categories[c])
  {
  }

  /**
    Once its creator's account is deleted, a category or image can be
    managed only by a user holding the matching "manage all" permission.
  */
  lemma OrphanedRowsNeedManageAll(s: Store, uid: UserId, user: User)
    ensures forall c :: c in s.categories && s.categories[c].createdBy == Some(uid) ==>
      (CanManageCategory(user, DeleteUser(s, uid).categories[c]) <==> CanManageAllCategories in user.perms)
    ensures forall i :: i in s.images && s.images[i].createdBy == Some(uid) ==>
      (CanManageImage(user, DeleteUser(s, uid).images[i]) <==> CanManageAllImages in user.perms)
  {
  }

  /** The images filed under a category: the rows `Count("images")` counts. */
  function FiledUnder(images: map<ImageId, ImageItem>, pk: CategoryId): set<ImageId> {
    set i | i in images && images[i].category == Some(pk)
  }

  /** The `image_count` annotation of a category on the category page: how many images are filed under it. */
  function ImageCount(s: Store, pk: CategoryId): (n: nat)
    requires WellFormed(s)
    ensures n == |FiledUnder(s.images, pk)|
    ensures n <= |s.images|
  {
    var filed := ImagesWhere(s, (img: ImageItem) => img.category == Some(pk));
    assert forall x :: x in filed <==> x in FiledUnder(s.images, pk);
    CountOfDistinct(filed, FiledUnder(s.images, pk), s.images.Keys);
    |filed|
  }

  /** A repeat-free listing of a set has the set's size. */
  lemma CountOfDistinct(r: seq<nat>, members: set<nat>, keys: set<nat>)
    requires Distinct(r)
    requires forall x :: x in r <==> x in members
    requires members <= keys
    ensures |r| == |members| <= |keys|
  {
    DistinctCardinality(r);
    ElemsMembers(r);
    assert Elems(r) == members;
    SubsetCardinality(members, keys);
  }

  /** The set of keys a sequence holds. */
  function Elems(r: seq<nat>): set<nat> {
    if r == [] then {} else {r[0]} + Elems(r[1..])
  }

  lemma {:induction false} ElemsMembers(r: seq<nat>)
    ensures forall x :: x in Elems(r) <==> x in r
  {
    if r != [] {
      ElemsMembers(r[1..]);
      assert r == [r[0]] + r[1..];
    }
  }

  /** A sequence without repeats has as many elements as the set of its elements. */
  lemma {:induction false} DistinctCardinality(r: seq<nat>)
    requires Distinct(r)
    ensures |Elems(r)| == |r|
  {
    if r != [] {
      DistinctCardinality(r[1..]);
      ElemsMembers(r[1..]);
      assert r[0] !in r[1..];
    }
  }

  lemma {:induction false} SubsetCardinality(a: set<nat>, b: set<nat>)
    requires a <= b
    ensures |a| <= |b|
  {
    if a != {} {
      var x :| x in a;
      SubsetCardinality(a - {x}, b - {x});
    }
  }

  /**
    The slideshow of an image: the images sharing its category, or all
    uncategorised images when it has none, newest first.
  */
  function Slides(s: Store, pk: ImageId): (slides: seq<ImageId>)
    requires WellFormed(s) && pk in s.images
    ensures forall i :: i in slides <==> i in s.images && s.images[i].category == s.images[pk].category
    ensures pk in slides
    ensures Distinct(slides)
    ensures forall i, j :: 0 <= i < j < |slides| ==>
      s.images[slides[i]].uploadedAt >= s.images[slides[j]].uploadedAt
  {
    var image := s.images[pk];
    if image.category.Some? then
      ImagesWhere(s, (img: ImageItem) => img.category == image.category)
    else
      ImagesWhere(s, (img: ImageItem) => img.category.None?)
  }

  /** The position the slideshow opens at: the first slide that is the viewed image, else 0. */
  method InitialIndex(slides: seq<ImageId>, pk: ImageId) returns (index: nat)
    ensures pk in slides ==> index < |slides| && slides[index] == pk && pk !in slides[..index]
    ensures pk !in slides ==> index == 0
    ensures |slides| > 0 ==> index < |slides|
  {
    index := 0;
    var idx := 0;
    while idx < |slides|
      invariant idx <= |slides|
      invariant pk !in slides[..idx]
      invariant index == 0
    {
      if slides[idx] == pk {
        index := idx;
        break;
      }
      idx := idx + 1;
    }
  }

  datatype Detail = Detail(image: ImageItem, slides: seq<ImageId>, initialIndex: nat)

  // ---------------------------------------------------------------------
  // Forms

  /** What `ImageItemForm` submits; `image` is None when no new file is uploaded. */
  datatype ImageForm = ImageForm(title: string, category: Option<CategoryId>, image: Option<ImageFile>)

  /**
    `ImageItemForm` validates: a non-empty title within its length, a category
    that is null or exists, and a file, either uploaded now or already stored.
  */
  predicate ImageFormValid(categories: map<CategoryId, Category>, form: ImageForm, stored: Option<ImageFile>) {
    && 0 < |form.title| <= ImageTitleMaxLength
    && CategoryChoiceValid(categories, form.category)
    && (form.image.Some? || stored.Some?)
  }

  /** The category choice of a form: null, or an existing category. */
  predicate CategoryChoiceValid(categories: map<CategoryId, Category>, choice: Option<CategoryId>) {
    choice.Some? ==> choice.value in categories
  }

  /**
    `CategoryForm` validates a non-empty name within its length that no other
    category (other than `editing`, the one being edited) already has.
  */
  predicate CategoryNameValid(categories: map<CategoryId, Category>, name: string, editing: Option<CategoryId>) {
    && 0 < |name| <= CategoryNameMaxLength
    && forall c :: c in categories && Some(c) != editing ==> categories[c].name != name
  }

  /** How a mutating view ends. */
  datatype Outcome =
    | Saved(pk: nat)
    | Deleted
    | LoginRequired
    | NotFound
    | PermissionDenied
    | FormInvalid

  // ---------------------------------------------------------------------
  // The store and the mutating views

  /**
    The gallery's tables, updated in place by the views. Only the POST path
    of each view is modelled; the order of its checks is kept: login, then
    lookup (404), then the ownership check (PermissionDenied), then the form,
    then the save.
  */
  class Gallery {
    var users: set<UserId>
    var categories: map<CategoryId, Category>
    var images: map<ImageId, ImageItem>
    var nextCategoryPk: nat
    var nextImagePk: nat

    function State(): Store
      reads this
    {
      Store(users, categories, images, nextCategoryPk, nextImagePk)
    }

    ghost predicate Valid()
      reads this
    {
      WellFormed(State())
    }

    /** An empty gallery over an existing set of user accounts. */
    constructor (accounts: set<UserId>)
      ensures Valid()
      ensures State() == Store(accounts, map[], map[], 1, 1)
    {
      users := accounts;
      categories := map[];
      images := map[];
      nextCategoryPk := 1;
      nextImagePk := 1;
    }

    /** `image_upload`: the new image is owned by the requester and stamped `now`. */
    method ImageUpload(req: Requester, form: ImageForm, now: Timestamp) returns (outcome: Outcome)
      requires Valid()
      requires req.Authenticated? ==> req.user.id in users
      modifies this`images, this`nextImagePk
      ensures Valid()
      ensures outcome ==
        if req.Anonymous? then LoginRequired
        else if !ImageFormValid(categories, form, None) then FormInvalid
        else Saved(old(nextImagePk))
      ensures outcome.Saved? ==>
        && outcome.pk !in old(images)
        && images == old(images)[outcome.pk := ImageItem(form.title, Some(req.user.id), form.category, form.image.value, now)]
        && nextImagePk == old(nextImagePk) + 1
      ensures outcome.Saved? ==>
        images[outcome.pk].createdBy == Some(req.user.id) && images[outcome.pk].uploadedAt == now
      ensures !outcome.Saved? ==> images == old(images) && nextImagePk == old(nextImagePk)
    {
      if req.Anonymous? {
        return LoginRequired;
      }
      if !ImageFormValid(categories, form, None) {
        return FormInvalid;
      }
      var image := ImageItem(form.title, None, form.category, form.image.value, now);
      image := image.(createdBy := Some(req.user.id));
      var pk := nextImagePk;
      images := images[pk := image];
      nextImagePk := nextImagePk + 1;
      outcome := Saved(pk);
    }

    /**
      `image_update`: only a manager of the image may edit it; the form edits
      title, category and file, never the owner or `uploaded_at`.
    */
    method ImageUpdate(req: Requester, pk: ImageId, form: ImageForm) returns (outcome: Outcome)
      requires Valid()
      modifies this`images
      ensures Valid()
      ensures outcome ==
        if req.Anonymous? then LoginRequired
        else if pk !in old(images) then NotFound
        else if !CanManageImage(req.user, old(images)[pk]) then PermissionDenied
        else if !ImageFormValid(categories, form, Some(old(images)[pk].image)) then FormInvalid
        else Saved(pk)
      ensures outcome.Saved? ==>
        images == old(images)[pk := old(images)[pk].(
          title := form.title,
          category := form.category,
          image := if form.image.Some? then form.image.value else old(images)[pk].image)]
      ensures outcome.Saved? ==>
        images[pk].createdBy == old(images)[pk].createdBy && images[pk].uploadedAt == old(images)[pk].uploadedAt
      ensures !outcome.Saved? ==> images == old(images)
    {
      if req.Anonymous? {
        return LoginRequired;
      }
      if pk !in images {
        return NotFound;
      }
      var image := images[pk];
      if !CanManageImage(req.user, image) {
        return PermissionDenied;
      }
      if !ImageFormValid(categories, form, Some(image.image)) {
        return FormInvalid;
      }
      var file := if form.image.Some? then form.image.value else image.image;
      images := images[pk := image.(title := form.title, category := form.category, image := file)];
      outcome := Saved(pk);
    }

    /** `image_delete`: only a manager of the image may delete it; nothing depends on an image. */
    method ImageDelete(req: Requester, pk: ImageId) returns (outcome: Outcome)
      requires Valid()
      modifies this`images
      ensures Valid()
      ensures outcome ==
        if req.Anonymous? then LoginRequired
        else if pk !in old(images) then NotFound
        else if !CanManageImage(req.user, old(images)[pk]) then PermissionDenied
        else Deleted
      ensures outcome == Deleted ==> images == old(images) - {pk}
      ensures outcome != Deleted ==> images == old(images)
    {
      if req.Anonymous? {
        return LoginRequired;
      }
      if pk !in images {
        return NotFound;
      }
      if !CanManageImage(req.user, images[pk]) {
        return PermissionDenied;
      }
      images := images - {pk};
      outcome := Deleted;
    }

    /**
      `image_category_update`: only a manager of the image may refile it; the
      form carries the category alone, so nothing else about the image changes.
    */
    method ImageCategoryUpdate(req: Requester, pk: ImageId, category: Option<CategoryId>) returns (outcome: Outcome)
      requires Valid()
      modifies this`images
      ensures Valid()
      ensures outcome ==
        if req.Anonymous? then LoginRequired
        else if pk !in old(images) then NotFound
        else if !CanManageImage(req.user, old(images)[pk]) then PermissionDenied
        else if !CategoryChoiceValid(categories, category) then FormInvalid
        else Saved(pk)
      ensures outcome.Saved? ==> images == old(images)[pk := old(images)[pk].(category := category)]
      ensures outcome.Saved? ==>
        && images[pk].title == old(images)[pk].title
        && images[pk].image == old(images)[pk].image
        && images[pk].createdBy == old(images)[pk].createdBy
        && images[pk].uploadedAt == old(images)[pk].uploadedAt
      ensures !outcome.Saved? ==> images == old(images)
    {
      if req.Anonymous? {
        return LoginRequired;
      }
      if pk !in images {
        return NotFound;
      }
      var image := images[pk];
      if !CanManageImage(req.user, image) {
        return PermissionDenied;
      }
      if !CategoryChoiceValid(categories, category) {
        return FormInvalid;
      }
      images := images[pk := image.(category := category)];
      outcome := Saved(pk);
    }

    /**
      `image_detail` (no login needed): the viewed image, its slideshow, and
      the slide the show opens at, which is the viewed image itself.
    */
    method ImageDetail(pk: ImageId) returns (detail: Option<Detail>)
      requires Valid()
      ensures detail.None? <==> pk !in images
      ensures detail.Some? ==>
        && detail.value.image == images[pk]
        && detail.value.slides == Slides(State(), pk)
        && detail.value.initialIndex < |detail.value.slides|
        && detail.value.slides[detail.value.initialIndex] == pk
    {
      if pk !in images {
        return None;
      }
      var slides := Slides(State(), pk);
      var index := InitialIndex(slides, pk);
      detail := Some(Detail(images[pk], slides, index));
    }

    /** `category_create`: the new category is owned by the requester. */
    method CategoryCreate(req: Requester, name: string) returns (outcome: Outcome)
      requires Valid()
      requires req.Authenticated? ==> req.user.id in users
      modifies this`categories, this`nextCategoryPk
      ensures Valid()
      ensures outcome ==
        if req.Anonymous? then LoginRequired
        else if !CategoryNameValid(old(categories), name, None) then FormInvalid
        else Saved(old(nextCategoryPk))
      ensures outcome.Saved? ==>
        && outcome.pk !in old(categories)
        && categories == old(categories)[outcome.pk := Category(name, Some(req.user.id))]
        && nextCategoryPk == old(nextCategoryPk) + 1
      ensures outcome.Saved? ==> categories[outcome.pk].createdBy == Some(req.user.id)
      ensures !outcome.Saved? ==> categories == old(categories) && nextCategoryPk == old(nextCategoryPk)
    {
      if req.Anonymous? {
        return LoginRequired;
      }
      if !CategoryNameValid(categories, name, None) {
        return FormInvalid;
      }
      var category := Category(name, None);
      category := category.(createdBy := Some(req.user.id));
      var pk := nextCategoryPk;
      categories := categories[pk := category];
      nextCategoryPk := nextCategoryPk + 1;
      outcome := Saved(pk);
    }

    /** `category_update`: only a manager of the category may rename it; the owner stays. */
    method CategoryUpdate(req: Requester, pk: CategoryId, name: string) returns (outcome: Outcome)
      requires Valid()
      modifies this`categories
      ensures Valid()
      ensures outcome ==
        if req.Anonymous? then LoginRequired
        else if pk !in old(categories) then NotFound
        else if !CanManageCategory(req.user, old(categories)[pk]) then PermissionDenied
        else if !CategoryNameValid(old(categories), name, Some(pk)) then FormInvalid
        else Saved(pk)
      ensures outcome.Saved? ==> categories == old(categories)[pk := old(categories)[pk].(name := name)]
      ensures !outcome.Saved? ==> categories == old(categories)
    {
      if req.Anonymous? {
        return LoginRequired;
      }
      if pk !in categories {
        return NotFound;
      }
      var category := categories[pk];
      if !CanManageCategory(req.user, category) {
        return PermissionDenied;
      }
      if !CategoryNameValid(categories, name, Some(pk)) {
        return FormInvalid;
      }
      categories := categories[pk := category.(name := name)];
      outcome := Saved(pk);
    }

    /**
      `category_delete`: only a manager of the category may delete it; its
      images stay, uncategorised.
    */
    method CategoryDelete(req: Requester, pk: CategoryId) returns (outcome: Outcome)
      requires Valid()
      modifies this`categories, this`images
      ensures Valid()
      ensures outcome ==
        if req.Anonymous? then LoginRequired
        else if pk !in old(categories) then NotFound
        else if !CanManageCategory(req.user, old(categories)[pk]) then PermissionDenied
        else Deleted
      ensures outcome == Deleted ==> State() == DeleteCategory(old(State()), pk)
      ensures outcome != Deleted ==> categories == old(categories) && images == old(images)
    {
      if req.Anonymous? {
        return LoginRequired;
      }
      if pk !in categories {
        return NotFound;
      }
      if !CanManageCategory(req.user, categories[pk]) {
        return PermissionDenied;
      }
      DeleteCategoryWellFormed(State(), pk);
      var after := DeleteCategory(State(), pk);
      categories, images := after.categories, after.images;
      outcome := Deleted;
    }
  }
}
