/**
 * The four persisted entities (users, posts, likes, comments) as values, and
 * the HTTP exceptions the services throw.
 */
module Entities {
  import opened Wrappers

  /** The nullable profile columns of a user row; None is NULL. */
  datatype Profile = Profile(username: Option<string>, bio: Option<string>, pictureUrl: Option<string>)

  /** The profile of a row created from a wallet address alone. */
  const EmptyProfile := Profile(None, None, None)

  /** A user row as the services return it: the primary key and the profile columns. */
  datatype User = User(wallet: string, profile: Profile)

  /** A post row; the timestamp is the clock reading taken when the post was created. */
  datatype Post = Post(id: string, wallet: string, content: string, timestamp: int)

  /** A like row: "wallet likes post". */
  datatype Like = Like(id: string, wallet: string, postId: string)

  /** A comment row. */
  datatype Comment = Comment(id: string, postId: string, wallet: string, content: string, timestamp: int)

  /** The two exceptions the services throw. */
  datatype HttpError = BadRequest(message: string) | NotFound(message: string)

  const InvalidPostId := BadRequest("Invalid post ID format")
  const PostNotFound := NotFound("Post not found")
  const UserNotFound := NotFound("User not found")
  const UserExists := BadRequest("User already exists")

  function CommentTime(c: Comment): int { c.timestamp }
}
