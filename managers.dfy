/** The published-posts manager: which posts the public may see, and the
    default newest-first ordering of posts. */
module Managers {
  import opened Models
  import opened QuerySet

  /** A post is visible to the public when it is published, has a category,
      that category is published, and its publication time is not in the
      future (equality included). A category id with no row behind it fails
      the join, like a null category. */
  predicate IsPublished(p: Post, categories: map<CategoryId, Category>, now: Time)
  {
    && p.isPublished
    && p.category.Some?
    && p.category.value in categories
    && categories[p.category.value].isPublished
    && p.pubDate <= now
  }

  /** Sort key of `order_by('-pub_date')`. */
  function NewestKey(p: Post): int { -p.pubDate }

  /** Publication dates never increase along `s`. */
  ghost predicate NewestFirst(s: seq<Post>)
  {
    SortedBy(s, NewestKey)
  }

  /** `order_by('-pub_date')`: newest first, a permutation of the input. */
  function OrderNewestFirst(s: seq<Post>): (r: seq<Post>)
    ensures NewestFirst(r)
    ensures multiset(r) == multiset(s)
    ensures forall p :: p in r <==> p in s
  {
    OrderBy(s, NewestKey)
  }

  /** The published-post filter (`get_published_posts`): exactly the posts
      of `s` that the public may see, in their order. */
  function GetPublishedPosts(s: seq<Post>, categories: map<CategoryId, Category>, now: Time): (r: seq<Post>)
    ensures forall p :: p in r <==> p in s && IsPublished(p, categories, now)
    ensures multiset(r) <= multiset(s)
  {
    Filter(s, p => IsPublished(p, categories, now))
  }

  /** Filtering an already filtered result again changes nothing. */
  lemma GetPublishedPostsIdempotent(s: seq<Post>, categories: map<CategoryId, Category>, now: Time)
    ensures GetPublishedPosts(GetPublishedPosts(s, categories, now), categories, now)
         == GetPublishedPosts(s, categories, now)
  {
    FilterIdempotent(s, p => IsPublished(p, categories, now));
  }

  /** Filtering a newest-first sequence leaves it newest first. */
  lemma GetPublishedPostsKeepsOrder(s: seq<Post>, categories: map<CategoryId, Category>, now: Time)
    requires NewestFirst(s)
    ensures NewestFirst(GetPublishedPosts(s, categories, now))
  {
    FilterKeepsSorted(s, p => IsPublished(p, categories, now), NewestKey);
  }

  /** `PublishedPostsManager.get_queryset`: the published posts of the table
      `rows`, newest first. */
  function PublishedOrdered(rows: seq<Post>, categories: map<CategoryId, Category>, now: Time): (r: seq<Post>)
    ensures forall p :: p in r <==> p in rows && IsPublished(p, categories, now)
    ensures multiset(r) <= multiset(rows)
    ensures NewestFirst(r)
  {
    OrderNewestFirst(GetPublishedPosts(rows, categories, now))
  }
}
