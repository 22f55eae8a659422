# Image gallery: ownership-based access control and gallery bookkeeping

A Dafny model of the core of a small image gallery web application. Users
upload images (`ImageItem`), file them under categories (`Category`), browse
the image list filtered by category, and open a slideshow of the images that
share a category. Each category and image records the user who created it;
a user may edit, delete or refile a category or image only when they created
it or hold the matching "manage all" permission
(`gallery.can_manage_all_categories`, `gallery.can_manage_all_images`).

The model is an in-memory store of the three tables (users, categories,
images) with:

- `common.dfy`, module `Common`: `Option`, for nullable foreign keys and
  optional form fields.
- `ordering.dfy`, module `Ordering`: the `order_by` and `filter` semantics
  the queries rely on. It gives a sort by a total preorder (the result is a
  sorted permutation of its input) and a key scan with a `WHERE` predicate.
- `models.dfy`, module `Models` (from `imgview/gallery/models.py`): the two
  records and the `Store` value. `WellFormed` holds the database constraints:
  unique category names, `max_length` 50 and 120, and foreign keys that are
  null or point at an existing row. It also gives the default ordering of
  categories by name and the `on_delete=SET_NULL` effects of deleting a
  category or a user, written as functions from store to store.
- `views.dfy`, module `Views` (from `imgview/gallery/views.py`): the two
  permission predicates, form validity, and the read-side queries as
  functions (image list, category list, slideshow, image counts). The
  slideshow's start-index loop is a method. The class `Gallery` holds the
  tables as fields. Its methods mirror the mutating views (upload, update,
  delete, recategorise, and category create/update/delete), keep
  `WellFormed` as their invariant, and state each outcome and the whole new
  state.

Conventions of the model:

- Primary keys are positive and auto-incremented (`nextCategoryPk`,
  `nextImagePk`). So Python's truthiness test `if image.category_id:` is the
  same as "the image has a category".
- `has_perm` is membership in an abstract per-user permission set
  (`User.perms`). An anonymous requester is `Anonymous`; `login_required`
  turns it away before anything else happens
  (`LoginRequired` from a mutating view, `LoginRedirect` from the category
  page).
- The mutating views are modelled on their POST path. The order of the
  checks is the source's: login, then lookup (`NotFound` for 404), then
  ownership (`PermissionDenied`), then form validation (`FormInvalid`, which
  re-renders the form), then the save.
- `uploaded_at` is `auto_now_add`. The clock is a parameter: `ImageUpload`
  takes `now`. Timestamps are an abstract ordered key.
- The stored file is an opaque path. An update form that uploads no new
  file keeps the stored one. This is how a bound `ImageField` behaves.
- The category choice in a form must be null or an existing category, as a
  model choice field checks. A category name must be non-empty, at most 50
  characters, and unused by any other category, as the model form's
  uniqueness validation checks.

`image_list` has no pagination: it returns the whole filtered query set,
and so does `Views.ImageList`.

## Model

| member | source | states |
|---|---|---|
| `Models.NameLe` | imgview/gallery/models.py:16 | the order categories are sorted by: names compared character by character, a prefix first |
| `Models.WellFormed` | imgview/gallery/models.py:5-43 | the database constraints: names unique and at most 50 characters, titles at most 120, foreign keys null or pointing at an existing row, keys below the auto-increment counters |
| `Views.CanManageCategory` | imgview/gallery/views.py:13-18 | a user may manage a category iff they hold `can_manage_all_categories` or are its recorded creator |
| `Views.CanManageImage` | imgview/gallery/views.py:21-26 | a user may manage an image iff they hold `can_manage_all_images` or are its recorded creator |
| `Views.ImageFormValid` | imgview/gallery/forms.py:8-11 | the image form is valid iff the title is non-empty and at most 120 characters, the category is null or exists, and a file is uploaded or already stored |
| `Views.CategoryChoiceValid` | imgview/gallery/forms.py:14-17 | the recategorise form is valid iff the chosen category is null or exists |
| `Views.CategoryNameValid` | imgview/gallery/forms.py:20-23 | the category form is valid iff the name is non-empty, at most 50 characters, and not used by any other category |
| `Views.Gallery.constructor` | imgview/gallery/models.py:5-43 | a new gallery holds the given users, no categories and no images, with both counters at 1, and satisfies the database constraints |
| `Models.NameLeTotal` | imgview/gallery/models.py:16 | any two category names are ordered one way or the other by the name ordering |
| `Models.NameLeTransitive` | imgview/gallery/models.py:16 | the name ordering is transitive, so ordering by name is a consistent sort |
| `Models.NameLeAntisymmetric` | imgview/gallery/models.py:16 | two names each ordered before the other are equal |
| `Models.CategoriesWhere` | imgview/gallery/models.py:5-16 | the selected categories appear exactly once each, in strictly increasing name order (names are unique) |
| `Models.DeleteCategory` | imgview/gallery/models.py:35-41 | deleting a category keeps every image; images filed under it have their category set to null and nothing else changed; all other rows are untouched |
| `Models.DeleteUser` | imgview/gallery/models.py:7-34 | deleting a user keeps every category and image; the rows they created have their creator set to null and nothing else changed; all other rows are untouched |
| `Models.DeleteCategoryWellFormed` | imgview/gallery/models.py:35-41 | the SET_NULL cascade on category deletion leaves no dangling category reference and keeps every constraint |
| `Models.DeleteUserWellFormed` | imgview/gallery/models.py:7-34 | the SET_NULL cascade on user deletion leaves no dangling owner reference and keeps every constraint |
| `Ordering.SortBy` | imgview/gallery/views.py:31-32 | an `order_by` result is a permutation of the rows, sorted by the key, with no row repeated |
| `Ordering.KeysWhere` | imgview/gallery/views.py:35 | the result holds exactly the keys whose rows satisfy the filter condition, in strictly increasing key order |
| `Views.ImagesWhere` | imgview/gallery/views.py:32-35 | the images satisfying a condition, each once, newest first |
| `Views.ImageList` | imgview/gallery/views.py:29-42 | the image list holds every image, or exactly those filed under the selected category, each once, newest first; beside it, every category once, strictly by name |
| `Views.CategoryList` | imgview/gallery/views.py:190-201 | an anonymous requester is redirected to log in; otherwise the page lists every category for a manage-all user, else exactly the user's own categories, each once, strictly by name, and reports whether the user can manage all |
| `Views.CategoryListIsManageable` | imgview/gallery/views.py:13-18 | a category is on a user's category page iff the user may manage it (holds `can_manage_all_categories` or created it) |
| `Views.OrphanedRowsNeedManageAll` | imgview/gallery/views.py:13-26 | after its creator is deleted, a category or image may be managed by a user iff that user holds the matching manage-all permission |
| `Views.ImageCount` | imgview/gallery/views.py:193 | a category's image count is exactly the number of images filed under it (hence at most the number of images) |
| `Views.Slides` | imgview/gallery/views.py:141-154 | the slides are exactly the images sharing the viewed image's category (all uncategorised images when it has none), each once, newest first, and include the viewed image |
| `Views.InitialIndex` | imgview/gallery/views.py:156-160 | the start index is the first position holding the viewed image's pk, 0 when it is absent, and in bounds whenever there are slides |
| `Views.Gallery.ImageDetail` | imgview/gallery/views.py:141-166 | 404 iff the image does not exist; otherwise its slideshow, opened at a slide that is the viewed image |
| `Views.Gallery.ImageUpload` | imgview/gallery/views.py:92-104 | anonymous: login required; invalid form: nothing changes; else a new image under a fresh pk, owned by the requester, stamped with the upload time; categories and users untouched; constraints kept |
| `Views.Gallery.ImageUpdate` | imgview/gallery/views.py:107-125 | a requester who may not manage the image gets PermissionDenied and nothing changes; a valid edit changes only title, category and file (file kept when none is uploaded), never owner or upload time |
| `Views.Gallery.ImageDelete` | imgview/gallery/views.py:128-138 | a requester who may not manage the image gets PermissionDenied and nothing changes; otherwise exactly that image is removed |
| `Views.Gallery.ImageCategoryUpdate` | imgview/gallery/views.py:169-187 | a requester who may not manage the image gets PermissionDenied and nothing changes; otherwise only the image's category changes, to null or an existing category |
| `Views.Gallery.CategoryCreate` | imgview/gallery/views.py:204-219 | anonymous: login required; an empty, over-long or taken name: nothing changes; else a new category under a fresh pk, owned by the requester; names stay unique |
| `Views.Gallery.CategoryUpdate` | imgview/gallery/views.py:222-239 | a requester who may not manage the category gets PermissionDenied and nothing changes; a valid rename changes only the name, which stays unique; the owner stays |
| `Views.Gallery.CategoryDelete` | imgview/gallery/views.py:242-251 | a requester who may not manage the category gets PermissionDenied and nothing changes; otherwise the category is removed and its images are kept, uncategorised |

## Left out

- Login, logout and signup (imgview/gallery/views.py:45-89) are session and password handling by the framework. Signup saves the new user inactive; user accounts are given to `Gallery`'s constructor and are not created by the model.
- Deleting a user is modelled only as the value-level cascade `Models.DeleteUser`. Users are deleted through the admin, which is not part of this model, so `Gallery` has no method for it.
- Template rendering, redirects, `next_url` handling and HTTP method dispatch. The GET path of each mutating view performs the same login, lookup and ownership checks and then only renders a form, so the model does not include it.
- File storage and upload I/O of the `ImageField`: the image is an opaque path.
- Real timestamps: `uploaded_at` is the `now` argument, and only its order matters.
- `has_perm` internals (superusers, groups, inactive users): the permission set of a `User` is taken as given.
- Database collation: names are compared character by character (`Models.NameLe`), and uniqueness is exact string equality.
- Form cleaning beyond the constraints above (whitespace stripping of `CharField`s, image content validation). A `category` query parameter that is not a number makes the query raise an error; the model takes the parameter as an already-parsed `Option`.
- `Views.ImagesWhere`, `Views.ImageList`, `Views.Slides`: images with equal `uploaded_at` come back in an order the database does not define. The contracts state only that timestamps do not increase along the list, not which tie order is used.
- Concurrency and transactions: requests are sequential, so the uniqueness check of the form and the database's unique constraint agree.
- imgview/gallery/forms.py, imgview/gallery/urls.py and imgview/gallery/admin.py: form wrappers, routing and admin display configuration. The only part of forms.py used is its field lists, which fix what each form may change.
