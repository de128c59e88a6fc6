/** The only-author guard and the redirect targets of the post and comment
    views. */
module Mixins {
  import opened Models

  /** Pages a response can redirect to. */
  datatype Target = PostDetailPage(postId: PostId) | ProfilePage(username: string)

  /** What a mutation view answers: a redirect, a 404, or the form shown
      again with its errors (nothing saved). */
  datatype Response = Redirect(to: Target) | NotFound | FormErrors

  /** `OnlyAuthorMixin.test_func`: the object's author is the request's user.
      The anonymous user equals no user. */
  function TestFunc(author: UserId, viewer: Viewer): (ok: bool)
    ensures ok <==> viewer == Authenticated(author)
    ensures viewer.Anonymous? ==> !ok
  {
    match viewer
    case Anonymous => false
    case Authenticated(u) => u == author
  }

  /** `OnlyAuthorMixin.handle_no_permission`: back to the detail page of the
      post in the path. */
  function NoPermission(postId: PostId): (r: Response)
    ensures r.Redirect? && r.to.PostDetailPage? && r.to.postId == postId
  {
    Redirect(PostDetailPage(postId))
  }

  /** `OnlyAuthorMixin.get_success_url`. */
  function AuthorSuccessUrl(postId: PostId): Target
  {
    PostDetailPage(postId)
  }

  /** `CreateDeletePostMixin.get_success_url`: the current user's profile. */
  function PostSuccessUrl(username: string): Target
  {
    ProfilePage(username)
  }

  /** `CreateUpdateDeleteCommentMixin.get_success_url`. */
  function CommentSuccessUrl(postId: PostId): Target
  {
    PostDetailPage(postId)
  }

  /** A refused actor lands where a successful edit of the same post or of a
      comment on it lands: the post's detail page. Creating or deleting a
      post lands on the current user's profile. */
  lemma RefusalAndSuccessAgree(postId: PostId, username: string)
    ensures NoPermission(postId) == Redirect(AuthorSuccessUrl(postId))
    ensures AuthorSuccessUrl(postId) == CommentSuccessUrl(postId) == PostDetailPage(postId)
    ensures PostSuccessUrl(username) == ProfilePage(username)
  {
  }
}
