/**
 * The persistence layer: the four tables (users, posts, likes, comments), the
 * constraints the schema declares on them, and the relation lookups the
 * repository queries perform.
 */
module Store {
  import opened Wrappers
  import opened Entities

  /** A snapshot of the four tables. Users are keyed by the exact wallet string. */
  datatype Tables = Tables(
    users: map<string, Profile>,
    posts: seq<Post>,
    likes: set<Like>,
    comments: seq<Comment>)

  /** The unique constraint on (wallet_address, post_id) of the likes table. */
  ghost predicate UniqueLikes(likes: set<Like>) {
    forall a, b :: a in likes && b in likes && a.wallet == b.wallet && a.postId == b.postId ==> a == b
  }

  /** Post ids are primary keys. */
  ghost predicate DistinctPostIds(posts: seq<Post>) {
    forall i, j :: 0 <= i < j < |posts| ==> posts[i].id != posts[j].id
  }

  function PostIds(posts: seq<Post>): set<string> {
    set p | p in posts :: p.id
  }

  /** The pairs (wallet, post id) that currently hold a like. */
  function LikedPairs(likes: set<Like>): set<(string, string)> {
    set l | l in likes :: (l.wallet, l.postId)
  }

  /**
   * The table constraints: the unique like pair, the primary keys, every
   * post, like and comment names a known user by its wallet, and every like
   * and comment names a known post.
   */
  ghost predicate Consistent(t: Tables) {
    && UniqueLikes(t.likes)
    && DistinctPostIds(t.posts)
    && (forall p :: p in t.posts ==> p.wallet in t.users)
    && (forall l :: l in t.likes ==> l.wallet in t.users && l.postId in PostIds(t.posts))
    && (forall c :: c in t.comments ==> c.wallet in t.users && c.postId in PostIds(t.posts))
  }

  /** `findOne({ where: { id } })` on the posts table. */
  function FindPost(posts: seq<Post>, id: string): (r: Option<Post>)
    ensures r.Some? ==> r.value in posts && r.value.id == id
    ensures r.None? <==> id !in PostIds(posts)
  {
    if posts == [] then None
    else if posts[0].id == id then Some(posts[0])
    else
      var r := FindPost(posts[1..], id);
      assert posts == [posts[0]] + posts[1..];
      assert PostIds(posts) == {posts[0].id} + PostIds(posts[1..]);
      r
  }

  /** With distinct ids, the post found for an id is the only post with that id. */
  lemma FindPostUnique(posts: seq<Post>, p: Post)
    requires DistinctPostIds(posts)
    requires p in posts
    ensures FindPost(posts, p.id) == Some(p)
  {
  }

  /** The likes relation of a post. */
  function LikesOf(likes: set<Like>, postId: string): (r: set<Like>)
    ensures forall l :: l in r <==> l in likes && l.postId == postId
  {
    set l | l in likes && l.postId == postId
  }

  /** The comments relation of a post, in table order. */
  function CommentsOf(comments: seq<Comment>, postId: string): (r: seq<Comment>)
    ensures forall c :: c in r <==> c in comments && c.postId == postId
    ensures |r| <= |comments|
  {
    if comments == [] then []
    else
      var rest := CommentsOf(comments[1..], postId);
      assert comments == [comments[0]] + comments[1..];
      if comments[0].postId == postId then [comments[0]] + rest else rest
  }

  /** A post that no comment refers to has no comments. */
  lemma {:induction false} CommentsOfNone(comments: seq<Comment>, postId: string)
    requires forall c :: c in comments ==> c.postId != postId
    ensures CommentsOf(comments, postId) == []
  {
    if comments != [] {
      assert forall c :: c in comments[1..] ==> c in comments;
      CommentsOfNone(comments[1..], postId);
    }
  }

  /** Filtering commutes with appending a row. */
  lemma {:induction false} CommentsOfAppend(comments: seq<Comment>, c: Comment, postId: string)
    ensures CommentsOf(comments + [c], postId)
         == CommentsOf(comments, postId) + (if c.postId == postId then [c] else [])
  {
    if comments != [] {
      assert (comments + [c])[1..] == comments[1..] + [c];
      CommentsOfAppend(comments[1..], c, postId);
    }
  }

  /** The user relation of a row that references the wallet w: NULL when no row matches. */
  function AuthorOf(users: map<string, Profile>, w: string): (r: Option<User>)
    ensures r.Some? <==> w in users
    ensures r.Some? ==> r.value.wallet == w && r.value.profile == users[w]
  {
    if w in users then Some(User(w, users[w])) else None
  }

  /** The database: four tables that the services read and reassign. */
  class Db {
    var users: map<string, Profile>
    var posts: seq<Post>
    var likes: set<Like>
    var comments: seq<Comment>

    function Snapshot(): Tables
      reads this
    {
      Tables(users, posts, likes, comments)
    }

    ghost predicate Valid()
      reads this
    {
      Consistent(Snapshot())
    }

    /** An empty database. */
    constructor ()
      ensures Valid()
      ensures Snapshot() == Tables(map[], [], {}, [])
    {
      users, posts, likes, comments := map[], [], {}, [];
    }
  }
}
