/** The views of the blog: the read queries (feed, profile, category page,
    post detail) over a snapshot of the store, and the create, update and
    delete handlers for posts and comments over the store itself. */
module Views {
  import opened Models
  import opened QuerySet
  import opened Managers
  import opened Store
  import opened Utils
  import opened Mixins

  /** `settings.PAGINATION_PER_PAGE`. */
  const PaginationPerPage: nat := 10

  /** `page` is the page of the annotated `posts` that the parameter selects:
      its number and page count as `get_page` computes them, and its items
      the window of `posts` that starts at `(number-1)*PaginationPerPage`
      and holds up to `PaginationPerPage` posts, each with the number of
      comments on it. */
  ghost predicate AnnotatedPageOf(page: Page<Annotated>, posts: seq<Post>, comments: map<CommentId, Comment>,
                                  param: PageParam)
  {
    var lo := (page.number - 1) * PaginationPerPage;
    && page.numPages == NumPages(|posts|, PaginationPerPage)
    && page.number == PageNumber(param, page.numPages)
    && lo <= |posts|
    && PostsOf(page.items) == posts[lo..Min(lo + PaginationPerPage, |posts|)]
    && forall i :: 0 <= i < |page.items| ==>
         page.items[i].commentCount == |CommentsOn(page.items[i].post.id, comments)|
  }

  /** `count_comments` then `paginate_queryset` gives the selected window of
      the posts, each with its comment count. */
  lemma AnnotatedPage(posts: seq<Post>, comments: map<CommentId, Comment>, n: nat, param: PageParam)
    requires forall k :: k in comments ==> k < n
    ensures AnnotatedPageOf(GetPage(CountComments(posts, comments, n), PaginationPerPage, param), posts, comments, param)
  {
    var rows := CountComments(posts, comments, n);
    var page := GetPage(rows, PaginationPerPage, param);
    var lo := (page.number - 1) * PaginationPerPage;
    WindowOfAnnotated(posts, comments, rows, page.items, lo, Min(lo + PaginationPerPage, |posts|));
  }

  // ------------------------------------------------------------ the feed

  /** The posts of the home page: every stored post the public may see,
      newest first. */
  function FeedPosts(db: Db, now: Time): (r: seq<Post>)
    requires Consistent(db)
    ensures forall p :: p in r <==> p.id in db.posts && db.posts[p.id] == p && IsPublished(p, db.categories, now)
    ensures forall p :: multiset(r)[p] <= 1
    ensures NewestFirst(r)
  {
    PostRowsExact(db);
    var ordered := OrderNewestFirst(PostRows(db));
    GetPublishedPostsKeepsOrder(ordered, db.categories, now);
    GetPublishedPosts(ordered, db.categories, now)
  }

  /** `PostListView.get_queryset`: the selected page of the annotated feed. */
  function Feed(db: Db, now: Time, param: PageParam): (page: Page<Annotated>)
    requires Consistent(db)
    ensures 1 <= page.number <= page.numPages
    ensures |page.items| <= PaginationPerPage
    ensures forall i :: 0 <= i < |page.items| ==>
      var a := page.items[i];
      && a.post.id in db.posts && db.posts[a.post.id] == a.post
      && IsPublished(a.post, db.categories, now)
      && a.commentCount == |CommentsOn(a.post.id, db.comments)|
    ensures AnnotatedPageOf(page, FeedPosts(db, now), db.comments, param)
  {
    AnnotatedPage(FeedPosts(db, now), db.comments, db.nextCommentId, param);
    var rows := CountComments(FeedPosts(db, now), db.comments, db.nextCommentId);
    GetPage(rows, PaginationPerPage, param)
  }

  // ------------------------------------------------------------ profiles

  /** `get_object_or_404(User, username=...)`. */
  function UserByUsername(users: map<UserId, User>, name: string): (r: Option<UserId>)
    requires UsernamesOk(users)
    ensures r.None? <==> forall u :: u in users ==> users[u].username != name
    ensures r.Some? ==> r.value in users && users[r.value].username == name
  {
    if exists u :: u in users && users[u].username == name then
      var u :| u in users && users[u].username == name;
      Some(u)
    else None
  }

  /** The posts a profile page lists: all of the owner's posts when the
      viewer is the owner, otherwise only those the public may see; newest
      first either way. */
  function ProfilePosts(db: Db, viewer: Viewer, profile: UserId, now: Time): (r: seq<Post>)
    requires Consistent(db)
    ensures viewer == Authenticated(profile) ==>
      forall p :: p in r <==> p.id in db.posts && db.posts[p.id] == p && p.author == profile
    ensures viewer != Authenticated(profile) ==>
      forall p :: p in r <==> p.id in db.posts && db.posts[p.id] == p && p.author == profile
                               && IsPublished(p, db.categories, now)
    ensures forall p :: multiset(r)[p] <= 1
    ensures NewestFirst(r)
  {
    PostRowsExact(db);
    var own := OrderNewestFirst(Filter(PostRows(db), (p: Post) => p.author == profile));
    if viewer == Authenticated(profile) then own
    else
      GetPublishedPostsKeepsOrder(own, db.categories, now);
      GetPublishedPosts(own, db.categories, now)
  }

  /** The viewer is the logged-in user whose profile has this username. */
  predicate IsOwner(db: Db, viewer: Viewer, username: string)
  {
    viewer.Authenticated? && viewer.id in db.users && db.users[viewer.id].username == username
  }

  /** `ProfileDetailView.get_queryset`: 404 for an unknown username,
      otherwise the selected page of the annotated profile posts. */
  function Profile(db: Db, viewer: Viewer, username: string, now: Time, param: PageParam): (r: Option<Page<Annotated>>)
    requires Consistent(db)
    ensures r.None? <==> forall u :: u in db.users ==> db.users[u].username != username
    ensures r.Some? ==> 1 <= r.value.number <= r.value.numPages && |r.value.items| <= PaginationPerPage
    ensures r.Some? ==> forall i :: 0 <= i < |r.value.items| ==>
      var p := r.value.items[i].post;
      && p.id in db.posts && db.posts[p.id] == p
      && db.users[p.author].username == username
      && (IsOwner(db, viewer, username) || IsPublished(p, db.categories, now))
    ensures r.Some? ==> AnnotatedPageOf(r.value, ProfilePosts(db, viewer, UserByUsername(db.users, username).value, now),
                                        db.comments, param)
  {
    match UserByUsername(db.users, username)
    case None => None
    case Some(profile) =>
      AnnotatedPage(ProfilePosts(db, viewer, profile, now), db.comments, db.nextCommentId, param);
      var rows := CountComments(ProfilePosts(db, viewer, profile, now), db.comments, db.nextCommentId);
      Some(GetPage(rows, PaginationPerPage, param))
  }

  // ------------------------------------------------------------ categories

  /** The post's category exists and has the slug `slug`. */
  predicate HasCategorySlug(p: Post, categories: map<CategoryId, Category>, slug: string)
  {
    p.category.Some? && p.category.value in categories && categories[p.category.value].slug == slug
  }

  /** The posts a category page lists: the posts the public may see whose
      category has the slug, newest first. */
  function CategoryPostsOf(db: Db, slug: string, now: Time): (r: seq<Post>)
    requires Consistent(db)
    ensures forall p :: p in r <==> p.id in db.posts && db.posts[p.id] == p
                                    && IsPublished(p, db.categories, now)
                                    && HasCategorySlug(p, db.categories, slug)
    ensures forall p :: multiset(r)[p] <= 1
    ensures NewestFirst(r)
  {
    PostRowsExact(db);
    var published := GetPublishedPosts(PostRows(db), db.categories, now);
    OrderNewestFirst(Filter(published, (p: Post) => HasCategorySlug(p, db.categories, slug)))
  }

  /** What a category page shows. */
  datatype CategoryPage = CategoryPage(category: Category, page: Page<Annotated>)

  /** The paginated, annotated posts of a category page. */
  function CategoryListing(db: Db, slug: string, now: Time, param: PageParam): (page: Page<Annotated>)
    requires Consistent(db)
    ensures |page.items| <= PaginationPerPage
    ensures forall i :: 0 <= i < |page.items| ==>
      var p := page.items[i].post;
      && p.id in db.posts && db.posts[p.id] == p
      && IsPublished(p, db.categories, now)
      && HasCategorySlug(p, db.categories, slug)
    ensures AnnotatedPageOf(page, CategoryPostsOf(db, slug, now), db.comments, param)
  {
    AnnotatedPage(CategoryPostsOf(db, slug, now), db.comments, db.nextCommentId, param);
    var rows := CountComments(CategoryPostsOf(db, slug, now), db.comments, db.nextCommentId);
    GetPage(rows, PaginationPerPage, param)
  }

  /** `category_posts`: 404 unless a published category has the slug;
      otherwise that stored category and the selected page of its annotated
      posts. */
  function CategoryView(db: Db, slug: string, now: Time, param: PageParam): (r: Option<CategoryPage>)
    requires Consistent(db)
    ensures r.None? <==> forall c :: c in db.categories ==> !(db.categories[c].slug == slug && db.categories[c].isPublished)
    ensures r.Some? ==> r.value.category.slug == slug && r.value.category.isPublished
    ensures r.Some? ==> r.value.category in db.categories.Values
    ensures r.Some? ==> |r.value.page.items| <= PaginationPerPage
    ensures r.Some? ==> forall i :: 0 <= i < |r.value.page.items| ==>
      var p := r.value.page.items[i].post;
      && p.id in db.posts && db.posts[p.id] == p
      && IsPublished(p, db.categories, now)
      && HasCategorySlug(p, db.categories, slug)
    ensures r.Some? ==> AnnotatedPageOf(r.value.page, CategoryPostsOf(db, slug, now), db.comments, param)
  {
    if exists c :: c in db.categories && db.categories[c].slug == slug && db.categories[c].isPublished then
      var c :| c in db.categories && db.categories[c].slug == slug && db.categories[c].isPublished;
      Some(CategoryPage(db.categories[c], CategoryListing(db, slug, now, param)))
    else None
  }

  // ------------------------------------------------------------ post detail

  /** The comment is on post `pid`. */
  function OnPost(pid: PostId): Comment -> bool
  {
    (c: Comment) => c.post == Some(pid)
  }

  function CreatedKey(c: Comment): int { c.createdAt }

  /** Creation times never decrease along `s`. */
  ghost predicate OldestFirst(s: seq<Comment>)
  {
    SortedBy(s, CreatedKey)
  }

  /** `Comment.objects.filter(post=post).order_by('created_at')`. */
  function PostComments(db: Db, pid: PostId): (r: seq<Comment>)
    requires Consistent(db)
    ensures forall c :: c in r <==> c.id in db.comments && db.comments[c.id] == c && c.post == Some(pid)
    ensures forall c :: multiset(r)[c] <= 1
    ensures OldestFirst(r)
  {
    CommentRowsExact(db);
    OrderBy(Filter(CommentRows(db), OnPost(pid)), CreatedKey)
  }

  /** The request user's username; the anonymous user's is empty. */
  function ViewerName(db: Db, viewer: Viewer): string
    requires ViewerKnown(db, viewer)
  {
    match viewer
    case Anonymous => ""
    case Authenticated(u) => db.users[u].username
  }

  /** `get_object_or_404(queryset, id=...)` over a sequence of posts. */
  function FindPost(s: seq<Post>, id: PostId): (r: Option<Post>)
    ensures r.Some? ==> r.value in s && r.value.id == id
    ensures r.None? ==> forall p :: p in s ==> p.id != id
  {
    if s == [] then None
    else if s[0].id == id then Some(s[0])
    else FindPost(s[1..], id)
  }

  /** What the detail page shows. */
  datatype Detail = Detail(post: Post, comments: seq<Comment>)

  /** `post_detail`: 404 for an unknown id; the author (matched by username)
      gets the post whatever its flags; anyone else gets it only when the
      public may see it, and 404 otherwise. The comments are those of the
      post, oldest first. */
  function PostDetail(db: Db, viewer: Viewer, postId: PostId, now: Time): (r: Option<Detail>)
    requires Consistent(db) && ViewerKnown(db, viewer)
    ensures postId !in db.posts ==> r.None?
    ensures postId in db.posts && viewer == Authenticated(db.posts[postId].author) ==> r.Some?
    ensures postId in db.posts && viewer != Authenticated(db.posts[postId].author) ==>
      (r.Some? <==> IsPublished(db.posts[postId], db.categories, now))
    ensures r.Some? ==> postId in db.posts && r.value.post == db.posts[postId]
    ensures r.Some? ==> r.value.comments == PostComments(db, postId)
  {
    if postId !in db.posts then None
    else
      var own := db.posts[postId];
      if ViewerName(db, viewer) == db.users[own.author].username then
        Some(Detail(own, PostComments(db, postId)))
      else
        PostRowsExact(db);
        match FindPost(GetPublishedPosts(PostRows(db), db.categories, now), postId)
        case None => None
        case Some(p) => Some(Detail(p, PostComments(db, postId)))
  }

  /** A scan of the comment ids below `n` keeps as many comments on `pid` as
      the comment-count annotation counts. */
  lemma {:induction false} ScanMatchesCount(comments: map<CommentId, Comment>, n: nat, pid: PostId)
    ensures |Filter(Rows(comments, n), OnPost(pid))| == CountBelow(pid, comments, n)
  {
    if n > 0 {
      var prev := Rows(comments, n - 1);
      var tail := if n - 1 in comments then [comments[n - 1]] else [];
      assert Rows(comments, n) == prev + tail;
      ScanMatchesCount(comments, n - 1, pid);
      FilterConcat(prev, tail, OnPost(pid));
      if n - 1 in comments {
        FilterSingleton(comments[n - 1], OnPost(pid));
      }
    }
  }

  /** The detail page lists exactly as many comments as the feed, profile
      and category pages annotate the post with. */
  lemma DetailCommentsMatchCount(db: Db, pid: PostId)
    requires Consistent(db)
    ensures |PostComments(db, pid)| == CommentCount(pid, db.comments, db.nextCommentId)
  {
    var kept := Filter(CommentRows(db), OnPost(pid));
    ScanMatchesCount(db.comments, db.nextCommentId, pid);
    assert |OrderBy(kept, CreatedKey)| == |multiset(OrderBy(kept, CreatedKey))| == |multiset(kept)| == |kept|;
  }

  // ------------------------------------------------------------ forms

  /** The fields `PostForm` binds; the image is not modelled. A `pubDate`
      of `None` is a date that is missing or does not parse. */
  datatype PostForm = PostForm(title: string, text: string, pubDate: Option<Time>,
                               category: Option<CategoryId>, location: Option<LocationId>)

  /** `PostForm.is_valid()`: title, text and publication date are given, and
      category and location are given and name existing rows. */
  predicate PostFormValid(form: PostForm, categories: map<CategoryId, Category>, locations: map<LocationId, Location>)
  {
    && form.title != "" && form.text != "" && form.pubDate.Some?
    && form.category.Some? && form.category.value in categories
    && form.location.Some? && form.location.value in locations
  }

  /** The field `CommentForm` binds. */
  datatype CommentForm = CommentForm(text: string)

  /** `CommentForm.is_valid()`: the text is given. */
  predicate CommentFormValid(form: CommentForm)
  {
    form.text != ""
  }

  /** The post `CreatePostView` saves under `id`: the form's fields, the
      current user as author, published by default, created now. */
  function NewPost(id: PostId, form: PostForm, author: UserId, now: Time): Post
    requires form.pubDate.Some?
  {
    Post(id, form.title, form.text, form.pubDate.value, author, form.location, form.category,
         DefaultIsPublished, now)
  }

  /** The post `UpdatePostView` saves: the form's fields over the stored post,
      with the current user stamped as author. */
  function EditedPost(p: Post, form: PostForm, author: UserId): Post
    requires form.pubDate.Some?
  {
    p.(title := form.title, text := form.text, pubDate := form.pubDate.value,
       category := form.category, location := form.location, author := author)
  }

  /** The comment `CommentCreateView` saves under `id`: the current user as
      author, the post of the path, an empty title, created now. */
  function NewComment(id: CommentId, form: CommentForm, author: UserId, postId: PostId, now: Time): Comment
  {
    Comment(id, "", form.text, author, now, Some(postId))
  }

  /** The comment `UpdateCommentView` saves: the new text, the current user as
      author, and the post of the path. */
  function EditedComment(c: Comment, form: CommentForm, author: UserId, postId: PostId): Comment
  {
    c.(text := form.text, author := author, post := Some(postId))
  }

  // ------------------------------------------------------------ mutations

  /** `CreatePostView` for the logged-in `user`: an invalid form changes
      nothing; a valid one saves the post under the next id with `user` as
      author and redirects to the user's profile. The author can then see
      the new post. */
  method CreatePost(blog: Blog, user: UserId, form: PostForm, now: Time) returns (resp: Response)
    requires blog.Valid() && user in blog.users
    modifies blog
    ensures blog.Valid()
    ensures !PostFormValid(form, old(blog.categories), old(blog.locations)) ==>
      resp == FormErrors && blog.State() == old(blog.State())
    ensures PostFormValid(form, old(blog.categories), old(blog.locations)) ==>
      var id := old(blog.nextPostId);
      && resp == Redirect(PostSuccessUrl(old(blog.users)[user].username))
      && id !in old(blog.posts)
      && blog.State() == old(blog.State()).(posts := old(blog.posts)[id := NewPost(id, form, user, now)],
                                            nextPostId := id + 1)
      && blog.posts[id].author == user
      && PostDetail(blog.State(), Authenticated(user), id, now).Some?
  {
    if !PostFormValid(form, blog.categories, blog.locations) {
      return FormErrors;
    }
    var id := blog.InsertPost(NewPost(0, form, user, now));
    assert NewPost(0, form, user, now).(id := id) == NewPost(id, form, user, now);
    resp := Redirect(PostSuccessUrl(blog.users[user].username));
  }

  /** `UpdatePostView` for the logged-in `user`: 404 for an unknown post; a
      user who is not the author is sent back to the post and nothing
      changes; an invalid form changes nothing; otherwise the post takes the
      form's fields, its author stays the same, and the user is sent to it. */
  method UpdatePost(blog: Blog, user: UserId, postId: PostId, form: PostForm) returns (resp: Response)
    requires blog.Valid() && user in blog.users
    modifies blog
    ensures blog.Valid()
    ensures postId !in old(blog.posts) ==> resp == NotFound && blog.State() == old(blog.State())
    ensures postId in old(blog.posts) && !TestFunc(old(blog.posts)[postId].author, Authenticated(user)) ==>
      resp == Redirect(PostDetailPage(postId)) && blog.State() == old(blog.State())
    ensures postId in old(blog.posts) && TestFunc(old(blog.posts)[postId].author, Authenticated(user))
            && !PostFormValid(form, old(blog.categories), old(blog.locations)) ==>
      resp == FormErrors && blog.State() == old(blog.State())
    ensures postId in old(blog.posts) && TestFunc(old(blog.posts)[postId].author, Authenticated(user))
            && PostFormValid(form, old(blog.categories), old(blog.locations)) ==>
      && resp == Redirect(PostDetailPage(postId))
      && blog.State() == old(blog.State()).(posts := old(blog.posts)[postId := EditedPost(old(blog.posts)[postId], form, user)])
      && blog.posts[postId].author == old(blog.posts)[postId].author
  {
    if postId !in blog.posts {
      return NotFound;
    }
    var post := blog.posts[postId];
    if !TestFunc(post.author, Authenticated(user)) {
      return NoPermission(postId);
    }
    if !PostFormValid(form, blog.categories, blog.locations) {
      return FormErrors;
    }
    blog.SavePost(EditedPost(post, form, user));
    resp := Redirect(PostDetailPage(postId));
  }

  /** `DeletePostView` for the logged-in `user`: 404 for an unknown post; a
      user who is not the author is sent back to the post and nothing
      changes; otherwise the post and the comments on it are deleted and the
      user is sent to their profile. The post is then not found by anyone. */
  method DeletePost(blog: Blog, user: UserId, postId: PostId, now: Time) returns (resp: Response)
    requires blog.Valid() && user in blog.users
    modifies blog
    ensures blog.Valid()
    ensures postId !in old(blog.posts) ==> resp == NotFound && blog.State() == old(blog.State())
    ensures postId in old(blog.posts) && !TestFunc(old(blog.posts)[postId].author, Authenticated(user)) ==>
      resp == Redirect(PostDetailPage(postId)) && blog.State() == old(blog.State())
    ensures postId in old(blog.posts) && TestFunc(old(blog.posts)[postId].author, Authenticated(user)) ==>
      && resp == Redirect(PostSuccessUrl(old(blog.users)[user].username))
      && blog.State() == old(blog.State()).(
           posts := old(blog.posts) - {postId},
           comments := map k | k in old(blog.comments) && old(blog.comments)[k].post != Some(postId) :: old(blog.comments)[k])
      && PostDetail(blog.State(), Authenticated(user), postId, now).None?
      && PostComments(blog.State(), postId) == []
  {
    if postId !in blog.posts {
      return NotFound;
    }
    if !TestFunc(blog.posts[postId].author, Authenticated(user)) {
      return NoPermission(postId);
    }
    var name := blog.users[user].username;
    blog.DeletePost(postId);
    DeletedPostGone(blog.State(), Authenticated(user), postId, now);
    resp := Redirect(PostSuccessUrl(name));
  }

  /** In a consistent store without post `postId`, its detail page is not
      found and no comment is listed under it. */
  lemma DeletedPostGone(db: Db, viewer: Viewer, postId: PostId, now: Time)
    requires Consistent(db) && ViewerKnown(db, viewer)
    requires postId !in db.posts
    ensures PostDetail(db, viewer, postId, now).None?
    ensures PostComments(db, postId) == []
  {
    assert forall k :: k in db.comments ==> db.comments[k].post != Some(postId);
    assert forall c :: c !in PostComments(db, postId);
  }

  /** `CommentCreateView` for the logged-in `user`: an invalid form changes
      nothing; 404 when the post of the path does not exist; otherwise the
      comment is saved under the next id on that post with `user` as author,
      and it is listed on the post's detail page. */
  method AddComment(blog: Blog, user: UserId, postId: PostId, form: CommentForm, now: Time) returns (resp: Response)
    requires blog.Valid() && user in blog.users
    modifies blog
    ensures blog.Valid()
    ensures !CommentFormValid(form) ==> resp == FormErrors && blog.State() == old(blog.State())
    ensures CommentFormValid(form) && postId !in old(blog.posts) ==>
      resp == NotFound && blog.State() == old(blog.State())
    ensures CommentFormValid(form) && postId in old(blog.posts) ==>
      var id := old(blog.nextCommentId);
      && resp == Redirect(CommentSuccessUrl(postId))
      && id !in old(blog.comments)
      && blog.State() == old(blog.State()).(comments := old(blog.comments)[id := NewComment(id, form, user, postId, now)],
                                            nextCommentId := id + 1)
      && blog.comments[id].author == user && blog.comments[id].post == Some(postId)
      && blog.comments[id] in PostComments(blog.State(), postId)
  {
    if !CommentFormValid(form) {
      return FormErrors;
    }
    if postId !in blog.posts {
      return NotFound;
    }
    var id := blog.InsertComment(NewComment(0, form, user, postId, now));
    assert NewComment(0, form, user, postId, now).(id := id) == NewComment(id, form, user, postId, now);
    resp := Redirect(CommentSuccessUrl(postId));
  }

  /** `UpdateCommentView` for the logged-in `user`: 404 for an unknown
      comment; a user who is not the comment's author is sent back to the
      post of the path and nothing changes; 404 when the post of the path
      does not exist, whether the form is valid (`form_valid`) or not (the
      error page's `get_context_data` looks the post up); an invalid form
      changes nothing; otherwise the comment takes the new text and is
      attached to the post of the path. */
  method EditComment(blog: Blog, user: UserId, postId: PostId, commentId: CommentId, form: CommentForm)
    returns (resp: Response)
    requires blog.Valid() && user in blog.users
    modifies blog
    ensures blog.Valid()
    ensures commentId !in old(blog.comments) ==> resp == NotFound && blog.State() == old(blog.State())
    ensures commentId in old(blog.comments) && !TestFunc(old(blog.comments)[commentId].author, Authenticated(user)) ==>
      resp == Redirect(PostDetailPage(postId)) && blog.State() == old(blog.State())
    ensures commentId in old(blog.comments) && TestFunc(old(blog.comments)[commentId].author, Authenticated(user)) ==>
      if postId !in old(blog.posts) then resp == NotFound && blog.State() == old(blog.State())
      else if !CommentFormValid(form) then resp == FormErrors && blog.State() == old(blog.State())
      else
        && resp == Redirect(CommentSuccessUrl(postId))
        && blog.State() == old(blog.State()).(
             comments := old(blog.comments)[commentId := EditedComment(old(blog.comments)[commentId], form, user, postId)])
        && blog.comments[commentId].author == old(blog.comments)[commentId].author
        && blog.comments[commentId].post == Some(postId)
  {
    if commentId !in blog.comments {
      return NotFound;
    }
    var comment := blog.comments[commentId];
    if !TestFunc(comment.author, Authenticated(user)) {
      return NoPermission(postId);
    }
    if postId !in blog.posts {
      return NotFound;
    }
    if !CommentFormValid(form) {
      return FormErrors;
    }
    blog.SaveComment(EditedComment(comment, form, user, postId));
    resp := Redirect(CommentSuccessUrl(postId));
  }

  /** `DeleteCommentView` for the logged-in `user`: 404 for an unknown
      comment; a user who is not the comment's author is sent back to the
      post of the path and nothing changes; otherwise the comment alone is
      deleted and the user is sent to the post of the path. */
  method DeleteComment(blog: Blog, user: UserId, postId: PostId, commentId: CommentId) returns (resp: Response)
    requires blog.Valid() && user in blog.users
    modifies blog
    ensures blog.Valid()
    ensures commentId !in old(blog.comments) ==> resp == NotFound && blog.State() == old(blog.State())
    ensures commentId in old(blog.comments) && !TestFunc(old(blog.comments)[commentId].author, Authenticated(user)) ==>
      resp == Redirect(PostDetailPage(postId)) && blog.State() == old(blog.State())
    ensures commentId in old(blog.comments) && TestFunc(old(blog.comments)[commentId].author, Authenticated(user)) ==>
      resp == Redirect(CommentSuccessUrl(postId))
      && blog.State() == old(blog.State()).(comments := old(blog.comments) - {commentId})
  {
    if commentId !in blog.comments {
      return NotFound;
    }
    if !TestFunc(blog.comments[commentId].author, Authenticated(user)) {
      return NoPermission(postId);
    }
    blog.DeleteComment(commentId);
    resp := Redirect(CommentSuccessUrl(postId));
  }
}
