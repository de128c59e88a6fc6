/** Record shapes of the blog app: users, categories, locations, posts and
    comments as rows of a relational store, referenced by integer ids. */
module Models {

  datatype Option<T> = None | Some(value: T)

  type UserId = nat
  type CategoryId = nat
  type LocationId = nat
  type PostId = nat
  type CommentId = nat

  /** Timestamps (`pub_date`, `created_at`, the request's `now`) as integers. */
  type Time = int

  /** `is_published` of every published model defaults to true. */
  const DefaultIsPublished: bool := true

  /** The authentication layer's user; only the username matters here. */
  datatype User = User(username: string)

  /** The current viewer of a request: the anonymous user or a logged-in one. */
  datatype Viewer = Anonymous | Authenticated(id: UserId)

  function Min(a: int, b: int): int { if a <= b then a else b }

  /** Python's `s[:n]` for a non-negative `n`: the longest prefix of `s` with
      at most `n` characters. */
  function Truncate(s: string, n: nat): (r: string)
    ensures r <= s && |r| <= n
    ensures |s| <= n ==> r == s
    ensures |s| > n ==> |r| == n
  {
    if |s| <= n then s else s[..n]
  }

  datatype Category = Category(title: string, description: string, slug: string,
                               isPublished: bool, createdAt: Time)
  {
    /** `__str__`: the title cut to `titleLen` characters. */
    function Str(titleLen: nat): (r: string)
      ensures r <= title && |r| == Min(|title|, titleLen)
    {
      Truncate(title, titleLen)
    }
  }

  datatype Location = Location(name: string, isPublished: bool, createdAt: Time)
  {
    /** `__str__`: the name cut to `titleLen` characters. */
    function Str(titleLen: nat): (r: string)
      ensures r <= name && |r| == Min(|name|, titleLen)
    {
      Truncate(name, titleLen)
    }
  }

  /** A post. Its category and location are nullable references; the image
      field is not modelled. */
  datatype Post = Post(id: PostId, title: string, text: string, pubDate: Time,
                       author: UserId, location: Option<LocationId>,
                       category: Option<CategoryId>, isPublished: bool,
                       createdAt: Time)
  {
    /** `__str__`: the title cut to `titleLen` characters. */
    function Str(titleLen: nat): (r: string)
      ensures r <= title && |r| == Min(|title|, titleLen)
    {
      Truncate(title, titleLen)
    }
  }

  /** A comment; `post` is nullable. */
  datatype Comment = Comment(id: CommentId, title: string, text: string,
                             author: UserId, createdAt: Time, post: Option<PostId>)
  {
    /** `__str__`: the title cut to `titleLen` characters. */
    function Str(titleLen: nat): (r: string)
      ensures r <= title && |r| == Min(|title|, titleLen)
    {
      Truncate(title, titleLen)
    }
  }
}
