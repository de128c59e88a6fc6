/** The relational store behind the blog: one table per model, keyed by
    autoincrement ids, and the `on_delete` rules of the foreign keys. */
module Store {
  import opened Models

  /** A snapshot of every table, with the next id each table hands out. */
  datatype Db = Db(users: map<UserId, User>,
                   categories: map<CategoryId, Category>,
                   locations: map<LocationId, Location>,
                   posts: map<PostId, Post>,
                   comments: map<CommentId, Comment>,
                   nextCategoryId: nat, nextLocationId: nat,
                   nextPostId: nat, nextCommentId: nat)

  /** Usernames are non-empty (the anonymous user's is the empty string) and
      unique. */
  ghost predicate UsernamesOk(users: map<UserId, User>)
  {
    && (forall u :: u in users ==> users[u].username != "")
    && (forall u, v :: u in users && v in users && users[u].username == users[v].username ==> u == v)
  }

  /** Category slugs are unique. */
  ghost predicate SlugsUnique(categories: map<CategoryId, Category>)
  {
    forall c, d :: c in categories && d in categories && categories[c].slug == categories[d].slug ==> c == d
  }

  predicate RefOk<K, V>(r: Option<K>, table: map<K, V>)
  {
    r.Some? ==> r.value in table
  }

  /** Every post row: its key is its id, below the next id, and its foreign
      keys point at existing rows (or are null). */
  ghost predicate PostsOk(db: Db)
  {
    forall k :: k in db.posts ==>
      && db.posts[k].id == k && k < db.nextPostId
      && db.posts[k].author in db.users
      && RefOk(db.posts[k].category, db.categories)
      && RefOk(db.posts[k].location, db.locations)
  }

  ghost predicate CommentsOk(db: Db)
  {
    forall k :: k in db.comments ==>
      && db.comments[k].id == k && k < db.nextCommentId
      && db.comments[k].author in db.users
      && RefOk(db.comments[k].post, db.posts)
  }

  /** The integrity constraints of the schema. */
  ghost predicate Consistent(db: Db)
  {
    && UsernamesOk(db.users)
    && SlugsUnique(db.categories)
    && (forall c :: c in db.categories ==> c < db.nextCategoryId)
    && (forall l :: l in db.locations ==> l < db.nextLocationId)
    && PostsOk(db)
    && CommentsOk(db)
  }

  /** The viewer is anonymous or a user that exists. */
  predicate ViewerKnown(db: Db, viewer: Viewer)
  {
    viewer.Authenticated? ==> viewer.id in db.users
  }

  /** A full scan of a table whose keys are below `n`, in primary-key order. */
  function Rows<T(!new)>(table: map<nat, T>, n: nat): (r: seq<T>)
    ensures forall k :: k in table && k < n ==> table[k] in r
    ensures forall x :: x in r ==> exists k :: k in table && k < n && table[k] == x
  {
    if n == 0 then []
    else Rows(table, n - 1) + (if n - 1 in table then [table[n - 1]] else [])
  }

  /** A scan of a table that stores no row under two keys lists every row
      at most once. */
  lemma {:induction false} RowsOnce<T(!new)>(table: map<nat, T>, n: nat)
    requires forall a, b :: a in table && b in table && table[a] == table[b] ==> a == b
    ensures forall x :: multiset(Rows(table, n))[x] <= 1
  {
    if n > 0 {
      RowsOnce(table, n - 1);
      if n - 1 in table {
        var x := table[n - 1];
        assert x !in Rows(table, n - 1);
        assert Rows(table, n) == Rows(table, n - 1) + [x];
      } else {
        assert Rows(table, n) == Rows(table, n - 1);
      }
    }
  }

  function PostRows(db: Db): seq<Post> { Rows(db.posts, db.nextPostId) }

  function CommentRows(db: Db): seq<Comment> { Rows(db.comments, db.nextCommentId) }

  /** The post table scan holds exactly the stored posts. */
  lemma PostRowsExact(db: Db)
    requires Consistent(db)
    ensures forall p :: p in PostRows(db) <==> p.id in db.posts && db.posts[p.id] == p
    ensures forall p :: multiset(PostRows(db))[p] <= 1
  {
    RowsOnce(db.posts, db.nextPostId);
    forall p ensures p in PostRows(db) <==> p.id in db.posts && db.posts[p.id] == p {
      if p in PostRows(db) {
        var k :| k in db.posts && k < db.nextPostId && db.posts[k] == p;
        assert p.id == k;
      }
    }
  }

  /** The comment table scan holds exactly the stored comments. */
  lemma CommentRowsExact(db: Db)
    requires Consistent(db)
    ensures forall c :: c in CommentRows(db) <==> c.id in db.comments && db.comments[c.id] == c
    ensures forall c :: multiset(CommentRows(db))[c] <= 1
  {
    RowsOnce(db.comments, db.nextCommentId);
    forall c ensures c in CommentRows(db) <==> c.id in db.comments && db.comments[c.id] == c {
      if c in CommentRows(db) {
        var k :| k in db.comments && k < db.nextCommentId && db.comments[k] == c;
        assert c.id == k;
      }
    }
  }

  /** The store itself, updated in place by the views. */
  class Blog {
    var users: map<UserId, User>
    var categories: map<CategoryId, Category>
    var locations: map<LocationId, Location>
    var posts: map<PostId, Post>
    var comments: map<CommentId, Comment>
    var nextCategoryId: nat
    var nextLocationId: nat
    var nextPostId: nat
    var nextCommentId: nat

    function State(): Db
      reads this
    {
      Db(users, categories, locations, posts, comments,
         nextCategoryId, nextLocationId, nextPostId, nextCommentId)
    }

    ghost predicate Valid()
      reads this
    {
      Consistent(State())
    }

    /** An empty blog over the given accounts. */
    constructor (users: map<UserId, User>)
      requires UsernamesOk(users)
      ensures Valid()
      ensures State() == Db(users, map[], map[], map[], map[], 0, 0, 0, 0)
    {
      this.users := users;
      categories, locations, posts, comments := map[], map[], map[], map[];
      nextCategoryId, nextLocationId, nextPostId, nextCommentId := 0, 0, 0, 0;
    }

    /** Saves a new category, published by default; refused when the slug is
        taken (the unique constraint on `slug`). */
    method AddCategory(title: string, description: string, slug: string, now: Time)
      returns (id: Option<CategoryId>)
      requires Valid()
      modifies this
      ensures Valid()
      ensures id.None? <==> exists c :: c in old(categories) && old(categories)[c].slug == slug
      ensures id.None? ==> State() == old(State())
      ensures id.Some? ==>
        && id.value == old(nextCategoryId) && nextCategoryId == id.value + 1
        && id.value !in old(categories)
        && categories == old(categories)[id.value := Category(title, description, slug, DefaultIsPublished, now)]
        && State() == old(State()).(categories := categories, nextCategoryId := nextCategoryId)
    {
      if exists c :: c in categories && categories[c].slug == slug {
        id := None;
      } else {
        id := Some(nextCategoryId);
        categories := categories[nextCategoryId := Category(title, description, slug, DefaultIsPublished, now)];
        nextCategoryId := nextCategoryId + 1;
      }
    }

    /** Saves a new location, published by default. */
    method AddLocation(name: string, now: Time) returns (id: LocationId)
      requires Valid()
      modifies this
      ensures Valid()
      ensures id == old(nextLocationId) && nextLocationId == id + 1
      ensures id !in old(locations)
      ensures locations == old(locations)[id := Location(name, DefaultIsPublished, now)]
      ensures State() == old(State()).(locations := locations, nextLocationId := nextLocationId)
    {
      id := nextLocationId;
      locations := locations[id := Location(name, DefaultIsPublished, now)];
      nextLocationId := nextLocationId + 1;
    }

    /** Inserts a post row under the next id. */
    method InsertPost(p: Post) returns (id: PostId)
      requires Valid()
      requires p.author in users && RefOk(p.category, categories) && RefOk(p.location, locations)
      modifies this
      ensures Valid()
      ensures id == old(nextPostId) && nextPostId == id + 1
      ensures id !in old(posts)
      ensures posts == old(posts)[id := p.(id := id)]
      ensures State() == old(State()).(posts := posts, nextPostId := nextPostId)
    {
      id := nextPostId;
      posts := posts[id := p.(id := id)];
      nextPostId := nextPostId + 1;
    }

    /** Overwrites an existing post row. */
    method SavePost(p: Post)
      requires Valid()
      requires p.id in posts
      requires p.author in users && RefOk(p.category, categories) && RefOk(p.location, locations)
      modifies this
      ensures Valid()
      ensures State() == old(State()).(posts := old(posts)[p.id := p])
    {
      posts := posts[p.id := p];
    }

    /** Inserts a comment row under the next id. */
    method InsertComment(c: Comment) returns (id: CommentId)
      requires Valid()
      requires c.author in users && RefOk(c.post, posts)
      modifies this
      ensures Valid()
      ensures id == old(nextCommentId) && nextCommentId == id + 1
      ensures id !in old(comments)
      ensures comments == old(comments)[id := c.(id := id)]
      ensures State() == old(State()).(comments := comments, nextCommentId := nextCommentId)
    {
      id := nextCommentId;
      comments := comments[id := c.(id := id)];
      nextCommentId := nextCommentId + 1;
    }

    /** Overwrites an existing comment row. */
    method SaveComment(c: Comment)
      requires Valid()
      requires c.id in comments
      requires c.author in users && RefOk(c.post, posts)
      modifies this
      ensures Valid()
      ensures State() == old(State()).(comments := old(comments)[c.id := c])
    {
      comments := comments[c.id := c];
    }

    /** Deletes a comment; nothing references comments. */
    method DeleteComment(id: CommentId)
      requires Valid()
      modifies this
      ensures Valid()
      ensures State() == old(State()).(comments := old(comments) - {id})
    {
      comments := comments - {id};
    }

    /** Deletes a post; `Comment.post` is CASCADE, so the comments on it go
        too and every other comment stays as it was. */
    method DeletePost(id: PostId)
      requires Valid()
      modifies this
      ensures Valid()
      ensures State() == old(State()).(
        posts := old(posts) - {id},
        comments := map k | k in old(comments) && old(comments)[k].post != Some(id) :: old(comments)[k])
    {
      comments := map k | k in comments && comments[k].post != Some(id) :: comments[k];
      posts := posts - {id};
    }

    /** Deletes a user; `Post.author` and `Comment.author` are CASCADE, so
        their posts go, their comments go, and so do the comments on the
        posts that go. */
    method DeleteUser(u: UserId)
      requires Valid()
      modifies this
      ensures Valid()
      ensures State() == old(State()).(
        users := old(users) - {u},
        posts := PostsNotBy(old(posts), u),
        comments := CommentsSurvivingUser(old(comments), old(posts), u))
    {
      DeleteUserConsistent(State(), u);
      comments := CommentsSurvivingUser(comments, posts, u);
      posts := PostsNotBy(posts, u);
      users := users - {u};
    }

    /** Deletes a category; `Post.category` is SET_NULL, so the posts stay
        with no category. */
    method DeleteCategory(c: CategoryId)
      requires Valid()
      modifies this
      ensures Valid()
      ensures State() == old(State()).(
        categories := old(categories) - {c},
        posts := PostsUnsetCategory(old(posts), c))
    {
      DeleteCategoryConsistent(State(), c);
      posts := PostsUnsetCategory(posts, c);
      categories := categories - {c};
    }

    /** Deletes a location; `Post.location` is SET_NULL, so the posts stay
        with no location. */
    method DeleteLocation(l: LocationId)
      requires Valid()
      modifies this
      ensures Valid()
      ensures State() == old(State()).(
        locations := old(locations) - {l},
        posts := PostsUnsetLocation(old(posts), l))
    {
      DeleteLocationConsistent(State(), l);
      posts := PostsUnsetLocation(posts, l);
      locations := locations - {l};
    }
  }

  /** The comment is on a stored post written by `u`. */
  predicate OnPostBy(c: Comment, posts: map<PostId, Post>, u: UserId)
  {
    c.post.Some? && c.post.value in posts && posts[c.post.value].author == u
  }

  /** The posts not written by `u`. */
  function PostsNotBy(posts: map<PostId, Post>, u: UserId): (r: map<PostId, Post>)
    ensures forall k :: k in r <==> k in posts && posts[k].author != u
    ensures forall k :: k in r ==> r[k] == posts[k]
  {
    map k | k in posts && posts[k].author != u :: posts[k]
  }

  /** The comments that survive deleting `u`: neither written by `u` nor on a
      post written by `u`. */
  function CommentsSurvivingUser(comments: map<CommentId, Comment>, posts: map<PostId, Post>, u: UserId)
    : (r: map<CommentId, Comment>)
    ensures forall k :: k in r <==> k in comments && comments[k].author != u && !OnPostBy(comments[k], posts, u)
    ensures forall k :: k in r ==> r[k] == comments[k]
  {
    map k | k in comments && comments[k].author != u && !OnPostBy(comments[k], posts, u) :: comments[k]
  }

  /** The cascades of deleting a user leave no dangling reference. */
  lemma DeleteUserConsistent(db: Db, u: UserId)
    requires Consistent(db)
    ensures Consistent(db.(users := db.users - {u},
                           posts := PostsNotBy(db.posts, u),
                           comments := CommentsSurvivingUser(db.comments, db.posts, u)))
  {
    var posts := PostsNotBy(db.posts, u);
    var comments := CommentsSurvivingUser(db.comments, db.posts, u);
    var db' := db.(users := db.users - {u}, posts := posts, comments := comments);
    assert PostsOk(db') by {
      forall k | k in posts
        ensures posts[k].id == k && k < db'.nextPostId && posts[k].author in db'.users
        ensures RefOk(posts[k].category, db'.categories) && RefOk(posts[k].location, db'.locations)
      {
        assert posts[k] == db.posts[k];
      }
    }
    assert CommentsOk(db') by {
      forall k | k in comments
        ensures comments[k].id == k && k < db'.nextCommentId && comments[k].author in db'.users
        ensures RefOk(comments[k].post, posts)
      {
        var c := db.comments[k];
        assert comments[k] == c;
        if c.post.Some? {
          assert c.post.value in db.posts;
          assert db.posts[c.post.value].author != u;
        }
      }
    }
  }

  /** SET_NULL of `Post.category` for the deleted category `c`. */
  function UnsetCategory(p: Post, c: CategoryId): (r: Post)
    ensures r.category == (if p.category == Some(c) then None else p.category)
    ensures r == p.(category := r.category)
  {
    if p.category == Some(c) then p.(category := None) else p
  }

  /** SET_NULL of `Post.location` for the deleted location `l`. */
  function UnsetLocation(p: Post, l: LocationId): (r: Post)
    ensures r.location == (if p.location == Some(l) then None else p.location)
    ensures r == p.(location := r.location)
  {
    if p.location == Some(l) then p.(location := None) else p
  }

  /** Every post, with its category set to null where it was `c`. */
  function PostsUnsetCategory(posts: map<PostId, Post>, c: CategoryId): (r: map<PostId, Post>)
    ensures r.Keys == posts.Keys
    ensures forall k :: k in r ==> r[k] == UnsetCategory(posts[k], c)
  {
    map k | k in posts :: UnsetCategory(posts[k], c)
  }

  /** SET_NULL leaves no post pointing at the deleted category. */
  lemma DeleteCategoryConsistent(db: Db, c: CategoryId)
    requires Consistent(db)
    ensures Consistent(db.(categories := db.categories - {c}, posts := PostsUnsetCategory(db.posts, c)))
  {
    var posts := PostsUnsetCategory(db.posts, c);
    var db' := db.(categories := db.categories - {c}, posts := posts);
    assert PostsOk(db') by {
      forall k | k in posts
        ensures posts[k].id == k && k < db'.nextPostId && posts[k].author in db'.users
        ensures RefOk(posts[k].category, db'.categories) && RefOk(posts[k].location, db'.locations)
      {
        assert posts[k] == UnsetCategory(db.posts[k], c);
      }
    }
    assert CommentsOk(db');
  }

  /** Every post, with its location set to null where it was `l`. */
  function PostsUnsetLocation(posts: map<PostId, Post>, l: LocationId): (r: map<PostId, Post>)
    ensures r.Keys == posts.Keys
    ensures forall k :: k in r ==> r[k] == UnsetLocation(posts[k], l)
  {
    map k | k in posts :: UnsetLocation(posts[k], l)
  }

  /** SET_NULL leaves no post pointing at the deleted location. */
  lemma DeleteLocationConsistent(db: Db, l: LocationId)
    requires Consistent(db)
    ensures Consistent(db.(locations := db.locations - {l}, posts := PostsUnsetLocation(db.posts, l)))
  {
    var posts := PostsUnsetLocation(db.posts, l);
    var db' := db.(locations := db.locations - {l}, posts := posts);
    assert PostsOk(db') by {
      forall k | k in posts
        ensures posts[k].id == k && k < db'.nextPostId && posts[k].author in db'.users
        ensures RefOk(posts[k].category, db'.categories) && RefOk(posts[k].location, db'.locations)
      {
        assert posts[k] == UnsetLocation(db.posts[k], l);
      }
    }
    assert CommentsOk(db');
  }
}
