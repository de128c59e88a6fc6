/** The comment-count annotation and Django's `Paginator.get_page`. */
module Utils {
  import opened Models

  /** A post row annotated with `comment_count`. */
  datatype Annotated = Annotated(post: Post, commentCount: nat)

  /** The ids of the comments whose `post` is `pid`. */
  ghost function CommentsOn(pid: PostId, comments: map<CommentId, Comment>): set<CommentId>
  {
    set k | k in comments && comments[k].post == Some(pid)
  }

  /** The ids below `n` of the comments whose `post` is `pid`. */
  ghost function CommentsOnBelow(pid: PostId, comments: map<CommentId, Comment>, n: nat): set<CommentId>
  {
    set k | k in comments && k < n && comments[k].post == Some(pid)
  }

  /** Raising the bound by one adds id `n - 1` exactly when it is a comment
      on `pid`. */
  lemma CommentsOnBelowStep(pid: PostId, comments: map<CommentId, Comment>, n: nat)
    requires n > 0
    ensures |CommentsOnBelow(pid, comments, n)| ==
            |CommentsOnBelow(pid, comments, n - 1)| + (if n - 1 in comments && comments[n - 1].post == Some(pid) then 1 else 0)
  {
    var below := CommentsOnBelow(pid, comments, n - 1);
    if n - 1 in comments && comments[n - 1].post == Some(pid) {
      assert CommentsOnBelow(pid, comments, n) == below + {n - 1};
      assert n - 1 !in below;
    } else {
      assert CommentsOnBelow(pid, comments, n) == below;
    }
  }

  /** `Count('comments')` for one post: a scan of the comment ids below `n`
      counting those whose `post` is `pid`. */
  function CountBelow(pid: PostId, comments: map<CommentId, Comment>, n: nat): (r: nat)
    ensures r == |CommentsOnBelow(pid, comments, n)|
  {
    if n == 0 then
      assert CommentsOnBelow(pid, comments, n) == {};
      0
    else
      CommentsOnBelowStep(pid, comments, n);
      CountBelow(pid, comments, n - 1) + (if n - 1 in comments && comments[n - 1].post == Some(pid) then 1 else 0)
  }

  /** `Count('comments')` over the whole comment table (every id below `n`):
      the number of comments whose `post` is `pid`, 0 when there are none. */
  function CommentCount(pid: PostId, comments: map<CommentId, Comment>, n: nat): (r: nat)
    requires forall k :: k in comments ==> k < n
    ensures r == |CommentsOn(pid, comments)|
    ensures r == 0 <==> forall k :: k in comments ==> comments[k].post != Some(pid)
  {
    assert CommentsOnBelow(pid, comments, n) == CommentsOn(pid, comments);
    var r := CountBelow(pid, comments, n);
    assert r == 0 ==> forall k :: k in comments ==> k !in CommentsOn(pid, comments);
    r
  }

  /** `count_comments`: annotates every row of `posts` with the number of
      comments on it, where every comment id is below `n`. */
  function CountComments(posts: seq<Post>, comments: map<CommentId, Comment>, n: nat): (r: seq<Annotated>)
    requires forall k :: k in comments ==> k < n
    ensures |r| == |posts|
    ensures forall i :: 0 <= i < |r| ==> r[i].post == posts[i]
    ensures forall i :: 0 <= i < |r| ==> r[i].commentCount == |CommentsOn(posts[i].id, comments)|
  {
    seq(|posts|, i requires 0 <= i < |posts| =>
      Annotated(posts[i], CommentCount(posts[i].id, comments, n)))
  }

  /** The posts of an annotated sequence, in order. */
  function PostsOf(s: seq<Annotated>): (r: seq<Post>)
    ensures |r| == |s| && forall i :: 0 <= i < |s| ==> r[i] == s[i].post
  {
    seq(|s|, i requires 0 <= i < |s| => s[i].post)
  }

  /** The annotation neither adds, removes nor reorders rows. */
  lemma CountCommentsKeepsRows(posts: seq<Post>, comments: map<CommentId, Comment>, n: nat)
    requires forall k :: k in comments ==> k < n
    ensures PostsOf(CountComments(posts, comments, n)) == posts
  {
  }

  // ---------------------------------------------------------------- paging

  /** The `page` query parameter: missing, not an integer, or an integer. */
  datatype PageParam = Absent | NotAnInteger | Integer(n: int)

  /** One page of results: its items, its number and the number of pages. */
  datatype Page<T> = Page(items: seq<T>, number: nat, numPages: nat)

  lemma MulMono(a: nat, b: nat, c: nat)
    requires a <= b
    ensures a * c <= b * c
  {
  }

  /** `Paginator.num_pages` with no orphans and an allowed empty first page:
      the fewest pages of `perPage` items holding `count` items, and at least
      one. */
  function NumPages(count: nat, perPage: nat): (r: nat)
    requires perPage > 0
    ensures r >= 1
    ensures count <= r * perPage
    ensures r == 1 || (r - 1) * perPage < count
  {
    if count == 0 then 1
    else
      var q := (count - 1) / perPage;
      assert q * perPage <= count - 1 < q * perPage + perPage;
      q + 1
  }

  /** `Paginator.get_page`: a missing or non-integer parameter gives page 1;
      an integer outside 1..num_pages gives the last page. */
  function PageNumber(param: PageParam, numPages: nat): (k: nat)
    requires numPages >= 1
    ensures 1 <= k <= numPages
    ensures !param.Integer? ==> k == 1
    ensures param.Integer? && 1 <= param.n <= numPages ==> k == param.n
    ensures param.Integer? && !(1 <= param.n <= numPages) ==> k == numPages
  {
    match param
    case Absent => 1
    case NotAnInteger => 1
    case Integer(n) => if 1 <= n <= numPages then n else numPages
  }

  /** Every item of a slice is an item of the sequence. */
  lemma SliceItemsIn<T>(s: seq<T>, lo: nat, hi: nat)
    requires lo <= hi <= |s|
    ensures forall i :: 0 <= i < hi - lo ==> s[lo..hi][i] in s
  {
    forall i | 0 <= i < hi - lo ensures s[lo..hi][i] in s {
      assert s[lo..hi][i] == s[lo + i];
    }
  }

  /** Page `k` exists iff it is page 0 or 1, or some item comes before it. */
  lemma PageExists(n: nat, perPage: nat, k: nat)
    requires perPage > 0
    ensures k <= NumPages(n, perPage) <==> k <= 1 || (k - 1) * perPage < n
  {
    var np := NumPages(n, perPage);
    if k <= np && k > 1 {
      MulMono(k - 1, np - 1, perPage);
    }
    if k > np {
      MulMono(np, k - 1, perPage);
    }
  }

  /** The items of page `k`: the slice from `(k-1)*perPage` up to `k*perPage`,
      cut at the end of `s`. */
  function PageSlice<T>(s: seq<T>, perPage: nat, k: nat): (r: seq<T>)
    requires perPage > 0 && 1 <= k && (k == 1 || (k - 1) * perPage < |s|)
    ensures (k - 1) * perPage <= |s|
    ensures |r| <= perPage
    ensures k < NumPages(|s|, perPage) ==> |r| == perPage
    ensures r == s[(k - 1) * perPage .. Min((k - 1) * perPage + perPage, |s|)]
    ensures forall i :: 0 <= i < |r| ==> r[i] in s
  {
    var lo := (k - 1) * perPage;
    var hi := Min(lo + perPage, |s|);
    assert k * perPage == lo + perPage;
    PageExists(|s|, perPage, k + 1);
    SliceItemsIn(s, lo, hi);
    s[lo..hi]
  }

  /** `paginate_queryset`: the page the parameter selects. */
  function GetPage<T>(s: seq<T>, perPage: nat, param: PageParam): (p: Page<T>)
    requires perPage > 0
    ensures p.numPages == NumPages(|s|, perPage)
    ensures 1 <= p.number <= p.numPages
    ensures p.number == PageNumber(param, p.numPages)
    ensures p.items == PageSlice(s, perPage, p.number)
    ensures forall i :: 0 <= i < |p.items| ==> p.items[i] in s
  {
    var n := NumPages(|s|, perPage);
    var k := PageNumber(param, n);
    PageExists(|s|, perPage, k);
    Page(PageSlice(s, perPage, k), k, n)
  }

  /** Pages 1 to `k` one after another. */
  function PagesUpTo<T>(s: seq<T>, perPage: nat, k: nat): seq<T>
    requires perPage > 0 && (k <= 1 || (k - 1) * perPage < |s|)
  {
    assert k <= 2 || (k - 1) * perPage == (k - 2) * perPage + perPage;
    if k == 0 then [] else PagesUpTo(s, perPage, k - 1) + PageSlice(s, perPage, k)
  }

  /** Pages 1 to `k` make up the prefix of `s` they cover, which ends
      `perPage` items after the start of page `k`. */
  lemma {:induction false} PagesUpToPrefix<T>(s: seq<T>, perPage: nat, k: nat)
    requires perPage > 0 && (k <= 1 || (k - 1) * perPage < |s|)
    ensures k > 0 ==> PagesUpTo(s, perPage, k) == s[..Min((k - 1) * perPage + perPage, |s|)]
  {
    if k > 1 {
      assert (k - 1) * perPage == (k - 2) * perPage + perPage;
      PagesUpToPrefix(s, perPage, k - 1);
      var lo := (k - 1) * perPage;
      assert s[..lo] + s[lo..Min(lo + perPage, |s|)] == s[..Min(lo + perPage, |s|)];
    }
  }

  /** Concatenating every page, first to last, gives back the whole input. */
  lemma AllPagesConcat<T>(s: seq<T>, perPage: nat)
    requires perPage > 0
    ensures PagesUpTo(s, perPage, NumPages(|s|, perPage)) == s
  {
    var n := NumPages(|s|, perPage);
    PageExists(|s|, perPage, n);
    PagesUpToPrefix(s, perPage, n);
    assert n * perPage == (n - 1) * perPage + perPage;
    assert s[..|s|] == s;
  }

  /** A slice of the annotated posts is the same slice of the posts, each
      with its comment count. */
  lemma WindowOfAnnotated(posts: seq<Post>, comments: map<CommentId, Comment>, rows: seq<Annotated>,
                          items: seq<Annotated>, lo: nat, hi: nat)
    requires |rows| == |posts| && lo <= hi <= |rows|
    requires forall i :: 0 <= i < |rows| ==> rows[i].post == posts[i]
    requires forall i :: 0 <= i < |rows| ==> rows[i].commentCount == |CommentsOn(posts[i].id, comments)|
    requires items == rows[lo..hi]
    ensures PostsOf(items) == posts[lo..hi]
    ensures forall i :: 0 <= i < |items| ==> items[i].commentCount == |CommentsOn(items[i].post.id, comments)|
  {
    forall i | 0 <= i < |items|
      ensures items[i].post == posts[lo..hi][i]
      ensures items[i].commentCount == |CommentsOn(items[i].post.id, comments)|
    {
      assert items[i] == rows[lo + i];
    }
  }
}
