/**
 * The four fetch wrappers (js/main.js `getUsers`, `getUserPosts`, `getUser`,
 * `getPostComments`). The remote data source is a parameter: for every URL it
 * says whether `fetch` + `response.json()` succeeds and with what data. The
 * wrappers' own rules are what is modelled: a falsy id is not sent and gives
 * `undefined`; a failure gives `[]` for a list and `{}` for a single user.
 */
module Gateway {
  import opened Records

  /** The outcome of one `fetch(url)` followed by `response.json()`. */
  datatype Outcome<T> = Fetched(data: T) | Failed

  /** What the remote data source answers for every URL. */
  datatype Remote = Remote(
    userList: string -> Outcome<seq<User>>,
    postList: string -> Outcome<seq<Post>>,
    user: string -> Outcome<User>,
    commentList: string -> Outcome<seq<Comment>>)

  /** A wrapper's result: `undefined` (not attempted) or a value. */
  datatype Fetch<T> = NotAttempted | Got(value: T)

  /** What `getUser` can hand back: the `{}` default or the decoded user. */
  datatype UserRecord = EmptyRecord | FullUser(user: User)

  const Base: string := "https://jsonplaceholder.typicode.com"
  const UsersUrl: string := Base + "/users"

  function UserPostsUrl(userId: JsId): (url: string) { Base + "/posts?userId=" + Render(userId) }
  function UserUrl(userId: JsId): (url: string) { Base + "/users/" + Render(userId) }
  function PostCommentsUrl(postId: JsId): (url: string) { Base + "/comments?postId=" + Render(postId) }

  /** `getUsers`: never fails towards its caller; a failure yields the empty list. */
  function GetUsers(net: Remote): (users: seq<User>)
    ensures net.userList(UsersUrl).Fetched? ==> users == net.userList(UsersUrl).data
    ensures net.userList(UsersUrl).Failed? ==> users == []
  {
    match net.userList(UsersUrl)
    case Fetched(data) => data
    case Failed => []
  }

  /** `getUserPosts`: `undefined` without a truthy userId, else the posts or `[]` on failure. */
  function GetUserPosts(net: Remote, userId: JsId): (r: Fetch<seq<Post>>)
    ensures r.NotAttempted? <==> !Truthy(userId)
    ensures Truthy(userId) && net.postList(UserPostsUrl(userId)).Failed? ==> r == Got([])
    ensures Truthy(userId) && net.postList(UserPostsUrl(userId)).Fetched? ==>
              r == Got(net.postList(UserPostsUrl(userId)).data)
  {
    if !Truthy(userId) then NotAttempted
    else match net.postList(UserPostsUrl(userId))
      case Fetched(data) => Got(data)
      case Failed => Got([])
  }

  /** `getUser`: `undefined` without a truthy userId, else the user or `{}` on failure. */
  function GetUser(net: Remote, userId: JsId): (r: Fetch<UserRecord>)
    ensures r.NotAttempted? <==> !Truthy(userId)
    ensures Truthy(userId) && net.user(UserUrl(userId)).Failed? ==> r == Got(EmptyRecord)
    ensures Truthy(userId) && net.user(UserUrl(userId)).Fetched? ==>
              r == Got(FullUser(net.user(UserUrl(userId)).data))
  {
    if !Truthy(userId) then NotAttempted
    else match net.user(UserUrl(userId))
      case Fetched(data) => Got(FullUser(data))
      case Failed => Got(EmptyRecord)
  }

  /** `getPostComments`: `undefined` without a truthy postId, else the comments or `[]` on failure. */
  function GetPostComments(net: Remote, postId: JsId): (r: Fetch<seq<Comment>>)
    ensures r.NotAttempted? <==> !Truthy(postId)
    ensures Truthy(postId) && net.commentList(PostCommentsUrl(postId)).Failed? ==> r == Got([])
    ensures Truthy(postId) && net.commentList(PostCommentsUrl(postId)).Fetched? ==>
              r == Got(net.commentList(PostCommentsUrl(postId)).data)
  {
    if !Truthy(postId) then NotAttempted
    else match net.commentList(PostCommentsUrl(postId))
      case Fetched(data) => Got(data)
      case Failed => Got([])
  }
}
