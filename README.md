# Blogicum: content visibility and authorisation

A Dafny model of the `blog` app of Blogicum, a Django blogging platform.
Users write posts, each with an optional category and location. Other users
comment on them. Visitors browse a paginated feed, category pages and
profiles. The model covers the rules that decide who sees what and who may
change what:

- **Published-post predicate** (`Managers`). A post is public when it is
  published, has a category, that category is published, and its
  `pub_date` is not later than `now`. The same module has the newest-first
  ordering.
- **Ownership guard** (`Mixins`). Only the author of a post or comment may
  edit or delete it. Anyone else is redirected to the post's detail page.
- **Read queries** (`Views`). The feed, a category page and a profile are
  each filtered, annotated with a comment count, ordered and paginated
  (`Utils`). The detail page shows a post to its author whatever its flags,
  and to anyone else only when it is public.
- **Mutations** (`Views`, `Store`). Create, update and delete for posts and
  comments stamp the current user as author. The store applies the schema's
  `on_delete` rules.

The store is a value `Store.Db`: one map per table, keyed by autoincrement
ids, plus the next id of each table. `Store.Consistent` states the schema's
integrity constraints: foreign keys point at existing rows and category
slugs are unique. It also assumes that usernames are unique and non-empty
(see "## Left out"). The read queries are
functions over a `Db`. The store that the views change in place is the
class `Store.Blog`. It has the same fields, `State()` gives its `Db`, and
`Valid()` is `Consistent(State())`. The mutation views are methods that take
the `Blog`. Each one states the whole new state and keeps `Valid()`. `now`
is always a parameter. A table scan returns rows in primary-key order, and
`order_by` is a stable sort, so rows with equal keys keep primary-key order.

The framework behaviour modelled is that of Django 3.2, the version named in
the headers of the migrations (`migrations/0010_auto_20240528_1159.py:1`).
From Django 4.0 on, `DeleteView` validates its `form_class` before it
deletes. In 3.2 it deletes on POST and ignores the `form_class` of
`DeletePostView` and `DeleteCommentView`, as `Views.DeletePost` and
`Views.DeleteComment` do.

Points where the code's behaviour is easy to misread:

- A `page` parameter below 1 gives the **last** page. Django's
  `Paginator.get_page` treats any out-of-range integer, including numbers
  below 1, as the last page, and only a missing or non-integer parameter as
  page 1.
- `post_detail` recognises the author by **username**
  (`blogicum/blog/views.py:170`), not by id. The anonymous user's username is
  the empty string. Under the username assumption in "## Left out", only the
  author matches.
- `Comment.post` is `CASCADE` (`blogicum/blog/models.py:117-119`), so
  deleting a post deletes its comments. Migration
  `0010_auto_20240528_1159.py:21` declares it `SET_NULL`. The model follows
  `models.py`.
- `views.py:16` imports `get_published_posts` from `utils`, but `utils.py`
  does not define it. The model takes it to be the filter of
  `managers.py:8-10` (`Managers.GetPublishedPosts`).

Other behaviour of the code that the model keeps:

- `CommentCreateView` looks up the post by id with no visibility check. A
  logged-in user can therefore comment on a post that they cannot see.
- `UpdateCommentView` does not check that the comment belongs to the
  `post_id` in the path. It moves the comment to that post
  (`Views.EditComment`).
- When the path's `post_id` names no post, `UpdateCommentView` answers 404
  even for an invalid form. `form_invalid` renders the form page, and the
  view's `get_context_data` looks the post up with `get_object_or_404`
  (`blogicum/blog/views.py:245-248`). `Views.EditComment` therefore checks
  the post before the form.

## Model

| member | source | states |
|---|---|---|
| `Models.Truncate` | blogicum/blog/models.py:45 | The result is the longest prefix of the string that has at most `n` characters. |
| `Models.Category.Str` | blogicum/blog/models.py:44-45 | A category prints as its title cut to `TITLE_LEN` characters. |
| `Models.Location.Str` | blogicum/blog/models.py:58-59 | A location prints as its name cut to `TITLE_LEN` characters. |
| `Models.Post.Str` | blogicum/blog/models.py:100-101 | A post prints as its title cut to `TITLE_LEN` characters. |
| `Models.Comment.Str` | blogicum/blog/models.py:125-126 | A comment prints as its title cut to `TITLE_LEN` characters. |
| `Managers.GetPublishedPosts` | blogicum/blog/managers.py:8-10 | A post is kept iff it is published, has a category that exists and is published, and has `pub_date <= now`. The result is a sub-multiset of the input. |
| `Managers.GetPublishedPostsIdempotent` | blogicum/blog/managers.py:8-10 | Applying the published filter twice gives the same result as applying it once. |
| `Managers.GetPublishedPostsKeepsOrder` | blogicum/blog/managers.py:8-11 | Filtering a newest-first sequence leaves it newest first. |
| `Managers.OrderNewestFirst` | blogicum/blog/managers.py:11 | `order_by('-pub_date')` returns a permutation of its input whose publication dates never increase. |
| `Managers.PublishedOrdered` | blogicum/blog/managers.py:7-11 | The manager returns exactly the public posts of the table, newest first. |
| `Store.Blog.AddCategory` | blogicum/blog/models.py:33-34 | A category with a slug that is already taken is refused and the store is unchanged. Otherwise the category is saved under the next id, published by default. |
| `Store.Blog.AddLocation` | blogicum/blog/models.py:15-16 | A new location is saved under the next id, published by default. Nothing else changes. |
| `Store.Blog.DeletePost` | blogicum/blog/models.py:117-119 | Deleting a post deletes every comment on it. All other comments and tables are unchanged, and the integrity constraints still hold. |
| `Store.Blog.DeleteUser` | blogicum/blog/models.py:73-75 | Deleting a user deletes their posts, their comments and the comments on their posts. Nothing else changes. |
| `Store.Blog.DeleteCategory` | blogicum/blog/models.py:81-84 | Deleting a category sets the category of the posts that referenced it to null. The posts remain. |
| `Store.Blog.DeleteLocation` | blogicum/blog/models.py:76-79 | Deleting a location sets the location of the posts that referenced it to null. The posts remain. |
| `Store.DeleteUserConsistent` | blogicum/blog/models.py:73-75 | After the user's posts, the user's comments and the comments on those posts are removed, every remaining foreign key still points at a row that exists. |
| `Store.DeleteCategoryConsistent` | blogicum/blog/models.py:81-84 | After a category is removed and its posts' category is set to null, every remaining foreign key still points at a row that exists. |
| `Store.DeleteLocationConsistent` | blogicum/blog/models.py:76-79 | After a location is removed and its posts' location is set to null, every remaining foreign key still points at a row that exists. |
| `Store.RowsOnce` | blogicum/blog/views.py:105-106 | A scan of a table keyed by id lists each stored row at most once, so `Post.objects` never yields a post twice. |
| `Utils.CountBelow` | blogicum/blog/utils.py:7 | A scan of the comment ids below `n` counts exactly the comments whose `post` is the given post. |
| `Utils.CommentCount` | blogicum/blog/utils.py:5-8 | `comment_count` equals the number of comments whose `post` is this post. It is 0 iff no comment references the post. |
| `Utils.CountComments` | blogicum/blog/utils.py:5-8 | The annotation keeps every row in place (same length, same post at each index) and attaches the true comment count to each row. |
| `Utils.CountCommentsKeepsRows` | blogicum/blog/utils.py:8 | Removing the annotation gives back the input sequence: nothing is added, removed or reordered. |
| `Utils.NumPages` | blogicum/blog/utils.py:13 | The page count is `max(1, ceil(n / page_size))`: it holds all items, it is 1 for an empty input, and otherwise the page before the last is not enough. |
| `Utils.PageNumber` | blogicum/blog/utils.py:14 | A missing or non-integer parameter selects page 1. An integer in range selects itself. Any other integer selects the last page. The result is always a valid page. |
| `Utils.PageExists` | blogicum/blog/utils.py:13-15 | Page `k` is within the page count iff `k` is at most 1 or at least one item comes before page `k`. |
| `Utils.PageSlice` | blogicum/blog/utils.py:15 | Page `k` is the slice `[(k-1)*size, min(k*size, n))` of the input. It holds at most `size` items, and exactly `size` on every page but the last. |
| `Views.AnnotatedPage` | blogicum/blog/utils.py:5-16 | Annotating a post list with comment counts and then paginating it 10 to a page gives page number `get_page`'s number, the page count `num_pages`, and exactly the posts at positions `(number-1)*10` onward, up to 10 of them, each with its comment count. |
| `Utils.GetPage` | blogicum/blog/utils.py:11-16 | The page that the parameter selects: a valid page number, the page count, and the matching slice. Every item on it comes from the input. |
| `Utils.PagesUpToPrefix` | blogicum/blog/utils.py:13-15 | Pages 1 to `k`, one after another, form the prefix of the input that ends `size` items after the start of page `k`, or at its end. |
| `Utils.AllPagesConcat` | blogicum/blog/utils.py:13-15 | Pages 1 to the page count, one after another, reproduce the input. |
| `Mixins.TestFunc` | blogicum/blog/views.py:33-35 | The guard passes iff the viewer is the logged-in object author. The anonymous viewer never passes. |
| `Mixins.NoPermission` | blogicum/blog/views.py:37-38 | A refused actor is redirected to the detail page of the `post_id` in the path. |
| `Mixins.RefusalAndSuccessAgree` | blogicum/blog/mixins.py:15-47 | The refusal redirect, the guard's success URL and the comment mixin's success URL are all the detail page of the `post_id` in the path. The post create/delete mixin goes to the user's profile. |
| `Views.FeedPosts` | blogicum/blog/views.py:105-106 | The feed holds exactly the stored posts that are public, each once, newest first. |
| `Views.Feed` | blogicum/blog/views.py:104-110 | The page is the window of the newest-first public posts (`FeedPosts`) that the parameter selects, up to 10 posts, each with its true comment count. Every item is a stored public post. |
| `Views.UserByUsername` | blogicum/blog/views.py:53-55 | The profile lookup finds the user with that username. It gives not-found iff no user has it. |
| `Views.ProfilePosts` | blogicum/blog/views.py:57-65 | The owner sees all of their own posts. Any other viewer sees only that author's public posts. Both lists hold each post once and are newest first. |
| `Views.Profile` | blogicum/blog/views.py:57-70 | An unknown username gives not-found. Otherwise the page is the window of `ProfilePosts` that the parameter selects, with comment counts. The owner's pages therefore cover all of their posts, and anyone else's cover exactly the public ones, newest first. Every listed post belongs to the profile's user, and it is public unless the viewer is that user. |
| `Views.CategoryPostsOf` | blogicum/blog/views.py:190-193 | A category page lists exactly the stored public posts whose category has the slug, each once, newest first. |
| `Views.CategoryListing` | blogicum/blog/views.py:190-196 | The listing is the window of `CategoryPostsOf` that the parameter selects, up to 10 posts, each with its comment count. Every listed post is stored, public and in a category with the slug. |
| `Views.CategoryView` | blogicum/blog/views.py:185-201 | Not-found iff no published category has the slug. Otherwise the page is the window of `CategoryPostsOf` that the parameter selects, with a valid page number and comment counts. Every listed post is public and in that category. The category returned is the stored row. |
| `Views.PostComments` | blogicum/blog/views.py:176-177 | The detail comments are exactly the stored comments on that post, each once, oldest first. |
| `Views.PostDetail` | blogicum/blog/views.py:166-182 | An unknown id gives not-found. The author gets the post whatever its flags. Anyone else gets it iff it is public, and not-found otherwise. The page carries the post's comments. |
| `Views.ScanMatchesCount` | blogicum/blog/utils.py:7 | Filtering a scan of the comment table for one post keeps as many comments as the annotation counts. |
| `Views.DetailCommentsMatchCount` | blogicum/blog/views.py:176-177 | The detail page lists as many comments as the list pages' `comment_count` reports for that post. |
| `Views.CreatePost` | blogicum/blog/views.py:125-131 | An invalid form changes nothing. A valid one saves the post under the next id, with the current user as author and published by default, and redirects to the user's profile. The author can then see the post. |
| `Views.UpdatePost` | blogicum/blog/views.py:134-149 | Unknown post: not-found, store unchanged. Not the author: redirect to the post's detail page, store unchanged. Invalid form: store unchanged. Otherwise the form's fields are saved, the author stays the same, and the user goes to the post. |
| `Views.DeletePost` | blogicum/blog/views.py:152-163 | Unknown post: not-found. Not the author: redirect to the post's detail page, store unchanged. Otherwise the post and its comments are deleted, nobody finds the post any more, and the user goes to their profile. |
| `Views.AddComment` | blogicum/blog/views.py:215-223 | An invalid form changes nothing. An unknown post in the path gives not-found and changes nothing. Otherwise the comment is saved on that post with the current user as author and appears on the post's detail list. |
| `Views.EditComment` | blogicum/blog/views.py:226-250 | The guard checks the comment's author. A refused actor is redirected to the detail page of the path's post and the store is unchanged. Then, if the path's post does not exist, the result is not-found whether the form is valid or not. An invalid form changes nothing. Otherwise the text is saved, the author stays the same, and the comment is attached to the path's post. |
| `Views.DeleteComment` | blogicum/blog/views.py:254-264 | Unknown comment: not-found. Not its author: redirect to the path's post, store unchanged. Otherwise only that comment is deleted. |

## Left out

- Template rendering, `render`, `redirect` and `reverse_lazy` URL strings. A
  response is the datatype `Mixins.Response`, and a redirect names a page
  (`Mixins.Target`).
- Login: `LoginRequiredMixin` and `login_required` are framework plumbing.
  Every mutation view requires a logged-in user who exists.
- GET requests to the form views, the context that `get_context_data`
  builds for a page (except the post lookup that makes an invalid comment
  edit a 404, which is modelled), and the unused
  `get_success_url` of `OnlyAuthorMixin` in `views.py`, which every view
  overrides.
- `edit_profile`, `urls.py`, `admin.py`, `pages/views.py` and the
  migrations. They are form plumbing, routing, back-office screens, static
  pages and schema history.
- `forms.py` beyond the rules the model checks. The post form needs a
  title, a text, a publication date that is present and parses, and an
  existing category and location. The comment form needs a text. The model does not check `max_length` (`settings.MAX_LENGTH`)
  or strip whitespace from input.
- Python's `int()` parsing of the `page` parameter. The parameter arrives
  already classified as absent, not an integer, or an integer.
- `settings.py` is not part of this model. `TITLE_LEN` is a `nat`
  parameter. `settings.PAGINATION_PER_PAGE` is fixed at 10 here.
- `timezone.now()` and `auto_now_add`: `now` is a parameter.
- The image field and upload storage.
- Creating users and changing category or location flags. The auth app and
  the admin screens do these.
- The order of rows with equal sort keys. The database does not fix it; the
  model keeps primary-key order.
- ORM laziness, `select_related` and transactional concurrency. They affect
  performance or are left to the database.
- The user model belongs to Django's auth app, which is not part of this
  model. `Store.UsernamesOk` assumes that usernames are unique and
  non-empty; the blog's own tables do not enforce this. The assumption
  matters because `post_detail` compares usernames
  (`blogicum/blog/views.py:170`). A stored user whose username is empty
  would match the anonymous visitor, whose username is also empty, so that
  visitor would see the user's unpublished posts. The model does not cover
  this case.
- `Store.Blog.DeleteUser`, `Store.Blog.DeleteCategory` and
  `Store.Blog.DeleteLocation` have no view in this app. They model the
  `on_delete` rules of `models.py` only.
