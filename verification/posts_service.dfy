/**
 * The posts service: create a post, list the feed, fetch one post, toggle a
 * like, and comment on a post, over the four tables.
 */
module Posts {
  import opened Wrappers
  import opened Entities
  import opened Store
  import opened Ordering
  import opened Users

  /** `getPost`: a post with its user, likes and comments relations loaded. */
  datatype PostRecord = PostRecord(post: Post, user: Option<User>, likes: set<Like>, comments: seq<Comment>)

  /** A comment with the profile of its author; None when no user row matches. */
  datatype CommentView = CommentView(comment: Comment, commentedBy: Option<User>)

  /** One entry of the feed `getPosts` returns. */
  datatype PostView = PostView(post: Post, user: Option<User>, likes: set<Like>, comments: seq<CommentView>)

  /** What `commentOnPost` returns: the saved comment and its post with the re-read comments. */
  datatype CommentReply = CommentReply(comment: Comment, post: Post, postUser: User, likes: set<Like>, comments: seq<CommentView>)

  /** What a call returns, and the tables after it. */
  datatype PostStep<R> = PostStep(result: Result<R, HttpError>, tables: Tables)

  /** Sort key that lists the newest post first. */
  function NewestFirst(p: Post): int { -p.timestamp }

  /** `getPost`: BadRequest for an id that is not a UUID, NotFound for an unknown one. */
  function LookupPost(t: Tables, isUuid: string -> bool, id: string): (r: Result<PostRecord, HttpError>)
    ensures !isUuid(id) ==> r == Failure(InvalidPostId)
    ensures isUuid(id) && id !in PostIds(t.posts) ==> r == Failure(PostNotFound)
    ensures r.Success? <==> isUuid(id) && id in PostIds(t.posts)
    ensures r.Success? ==>
      && r.value.post in t.posts && r.value.post.id == id
      && Some(r.value.post) == FindPost(t.posts, id)
      && r.value.user == AuthorOf(t.users, r.value.post.wallet)
      && r.value.likes == LikesOf(t.likes, id)
      && r.value.comments == CommentsOf(t.comments, id)
  {
    if !isUuid(id) then Failure(InvalidPostId)
    else match FindPost(t.posts, id)
      case None => Failure(PostNotFound)
      case Some(p) => Success(PostRecord(p, AuthorOf(t.users, p.wallet), LikesOf(t.likes, id), CommentsOf(t.comments, id)))
  }

  /** `createPost`: NotFound for an unknown author, else one new post and nothing else changed. */
  function CreatePostStep(t: Tables, w: string, content: string, now: int, newId: string): (s: PostStep<Post>)
    requires Consistent(t)
    requires newId !in PostIds(t.posts)
    ensures Consistent(s.tables)
    ensures w !in t.users ==> s == PostStep(Failure(UserNotFound), t)
    ensures w in t.users ==>
      && s.result == Success(Post(newId, w, content, now))
      && s.tables.posts == t.posts + [Post(newId, w, content, now)]
      && s.tables.users == t.users && s.tables.likes == t.likes && s.tables.comments == t.comments
  {
    match FindUser(t.users, w)
    case Failure(e) => PostStep(Failure(e), t)
    case Success(_) =>
      var post := Post(newId, w, content, now);
      assert PostIds(t.posts + [post]) == PostIds(t.posts) + {newId};
      PostStep(Success(post), t.(posts := t.posts + [post]))
  }

  /** The likes row of (w, postId), if any. */
  function LikesBy(likes: set<Like>, w: string, postId: string): (r: set<Like>)
    ensures r <= likes && forall l :: l in r ==> l.wallet == w && l.postId == postId
    ensures r == {} <==> (w, postId) !in LikedPairs(likes)
    ensures UniqueLikes(likes) && r != {} ==> exists l :: r == {l}
  {
    var r := set l | l in likes && l.wallet == w && l.postId == postId;
    assert (w, postId) in LikedPairs(likes) ==> r != {} by {
      if (w, postId) in LikedPairs(likes) {
        var l :| l in likes && (l.wallet, l.postId) == (w, postId);
        assert l in r;
      }
    }
    assert UniqueLikes(likes) && r != {} ==> exists l :: r == {l} by {
      if UniqueLikes(likes) && r != {} {
        var l :| l in r;
        assert r == {l};
      }
    }
    r
  }

  /**
   * `likePost`: after the id, post and user checks, remove the like of
   * (w, postId) and return None, or insert one and return it.
   */
  function LikeStep(t: Tables, isUuid: string -> bool, postId: string, w: string, newId: string): (s: PostStep<Option<Like>>)
    requires Consistent(t)
    ensures Consistent(s.tables)
    ensures s.tables.users == t.users && s.tables.posts == t.posts && s.tables.comments == t.comments
    ensures !isUuid(postId) ==> s == PostStep(Failure(InvalidPostId), t)
    ensures isUuid(postId) && postId !in PostIds(t.posts) ==> s == PostStep(Failure(PostNotFound), t)
    ensures isUuid(postId) && postId in PostIds(t.posts) && w !in t.users ==> s == PostStep(Failure(UserNotFound), t)
    ensures s.result.Success? <==> isUuid(postId) && postId in PostIds(t.posts) && w in t.users
    ensures s.result.Success? ==>
      LikedPairs(s.tables.likes)
        == if (w, postId) in LikedPairs(t.likes) then LikedPairs(t.likes) - {(w, postId)}
           else LikedPairs(t.likes) + {(w, postId)}
    ensures s.result.Success? && (w, postId) in LikedPairs(t.likes) ==>
      && s.result.value == None
      && exists l :: l in t.likes && l.wallet == w && l.postId == postId && s.tables.likes == t.likes - {l}
    ensures s.result.Success? && (w, postId) !in LikedPairs(t.likes) ==>
      && s.result.value == Some(Like(newId, w, postId))
      && s.tables.likes == t.likes + {Like(newId, w, postId)}
  {
    if !isUuid(postId) then PostStep(Failure(InvalidPostId), t)
    else match LookupPost(t, isUuid, postId)
      case Failure(e) => PostStep(Failure(e), t)
      case Success(rec) =>
        match FindUser(t.users, w)
        case Failure(e) => PostStep(Failure(e), t)
        case Success(_) =>
          var existing := LikesBy(t.likes, w, postId);
          if existing != {} then
            var l :| l in existing;
            assert existing == {l};
            assert LikedPairs(t.likes - existing) == LikedPairs(t.likes) - {(w, postId)};
            PostStep(Success(None), t.(likes := t.likes - existing))
          else
            var like := Like(newId, w, rec.post.id);
            PostStep(Success(Some(like)), t.(likes := t.likes + {like}))
  }

  /** `comments.map(c => c.wallet_address)`. */
  function WalletsOf(cs: seq<Comment>): (r: seq<string>)
    ensures |r| == |cs| && forall i :: 0 <= i < |cs| ==> r[i] == cs[i].wallet
  {
    seq(|cs|, i requires 0 <= i < |cs| => cs[i].wallet)
  }

  /** `allUsers.find(u => u.wallet_address === w)`. */
  function FindIn(us: set<User>, w: string): (r: Option<User>)
    requires forall u, v :: u in us && v in us && u.wallet == v.wallet ==> u == v
    ensures r.Some? <==> exists u :: u in us && u.wallet == w
    ensures r.Some? ==> r.value in us && r.value.wallet == w
  {
    if exists u :: u in us && u.wallet == w then
      var u :| u in us && u.wallet == w;
      Some(u)
    else None
  }

  /** The enrichment step of `commentOnPost`: each comment with the found author. */
  function Enrich(cs: seq<Comment>, us: set<User>): (r: seq<CommentView>)
    requires forall u, v :: u in us && v in us && u.wallet == v.wallet ==> u == v
  {
    seq(|cs|, i requires 0 <= i < |cs| => CommentView(cs[i], FindIn(us, cs[i].wallet)))
  }

  /** The comments of a list of views. */
  function CommentsIn(views: seq<CommentView>): (r: seq<Comment>)
    ensures |r| == |views| && forall i :: 0 <= i < |views| ==> r[i] == views[i].comment
  {
    seq(|views|, i requires 0 <= i < |views| => views[i].comment)
  }

  /**
   * Joining a comment list to `findByWallets` of its own wallets gives each
   * comment the user row whose key equals its wallet exactly, or None.
   */
  lemma {:induction false} EnrichJoinsByWallet(users: map<string, Profile>, cs: seq<Comment>)
    requires |cs| > 0
    ensures var views := Enrich(cs, UsersAmong(users, WalletsOf(cs)));
      && CommentsIn(views) == cs
      && forall i :: 0 <= i < |views| ==> views[i].commentedBy == AuthorOf(users, cs[i].wallet)
  {
    var us := UsersAmong(users, WalletsOf(cs));
    var views := Enrich(cs, us);
    forall i | 0 <= i < |views|
      ensures views[i].commentedBy == AuthorOf(users, cs[i].wallet)
    {
      var w := cs[i].wallet;
      assert w == WalletsOf(cs)[i];
      if w in users {
        assert User(w, users[w]) in us;
      }
    }
  }

  /**
   * The read-after-write step of `commentOnPost`: the post's comments ordered
   * by ascending timestamp, each joined to `findByWallets` of their wallets.
   * The list holds at least the comment just saved, so the wallet list is
   * never empty.
   */
  function RereadComments(users: map<string, Profile>, comments: seq<Comment>, postId: string): (views: seq<CommentView>)
    requires exists c :: c in comments && c.postId == postId
    ensures SortedBy(CommentsIn(views), CommentTime)
    ensures multiset(CommentsIn(views)) == multiset(CommentsOf(comments, postId))
    ensures forall i :: 0 <= i < |views| ==> views[i].commentedBy == AuthorOf(users, views[i].comment.wallet)
  {
    var listed := SortBy(CommentsOf(comments, postId), CommentTime);
    var c :| c in comments && c.postId == postId;
    assert c in multiset(listed);
    EnrichJoinsByWallet(users, listed);
    Enrich(listed, UsersAmong(users, WalletsOf(listed)))
  }

  /** A comment by a known user on a known post keeps the tables consistent. */
  lemma AppendCommentConsistent(t: Tables, c: Comment)
    requires Consistent(t)
    requires c.wallet in t.users && c.postId in PostIds(t.posts)
    ensures Consistent(t.(comments := t.comments + [c]))
  {
  }

  /** The success path of `commentOnPost`, once the post and the author are found. */
  function SaveComment(t: Tables, rec: PostRecord, w: string, content: string, now: int, newId: string)
    : (s: PostStep<CommentReply>)
    requires Consistent(t)
    requires rec.post in t.posts && rec.user == AuthorOf(t.users, rec.post.wallet)
    requires w in t.users
    ensures Consistent(s.tables)
    ensures s.result.Success?
    ensures s.result.value.comment == Comment(newId, rec.post.id, w, content, now)
    ensures s.tables == t.(comments := t.comments + [s.result.value.comment])
    ensures var views := s.result.value.comments;
      && SortedBy(CommentsIn(views), CommentTime)
      && multiset(CommentsIn(views)) == multiset(CommentsOf(s.tables.comments, rec.post.id))
      && s.result.value.comment in CommentsIn(views)
      && forall i :: 0 <= i < |views| ==> views[i].commentedBy == AuthorOf(t.users, views[i].comment.wallet)
    ensures s.result.value.post == rec.post && Some(s.result.value.postUser) == rec.user
    ensures s.result.value.likes == rec.likes
  {
    var c := Comment(newId, rec.post.id, w, content, now);
    var after := t.(comments := t.comments + [c]);
    AppendCommentConsistent(t, c);
    assert c in after.comments;
    var views := RereadComments(after.users, after.comments, rec.post.id);
    assert c in multiset(CommentsIn(views));
    PostStep(Success(CommentReply(c, rec.post, rec.user.value, rec.likes, views)), after)
  }

  /**
   * `commentOnPost`: after the id, post and user checks, append one comment
   * and return it with its post and the post's comments re-read in ascending
   * timestamp order, each joined to its author.
   */
  function CommentStep(t: Tables, isUuid: string -> bool, postId: string, w: string, content: string, now: int, newId: string)
    : (s: PostStep<CommentReply>)
    requires Consistent(t)
    ensures Consistent(s.tables)
    ensures !isUuid(postId) ==> s == PostStep(Failure(InvalidPostId), t)
    ensures isUuid(postId) && postId !in PostIds(t.posts) ==> s == PostStep(Failure(PostNotFound), t)
    ensures isUuid(postId) && postId in PostIds(t.posts) && w !in t.users ==> s == PostStep(Failure(UserNotFound), t)
    ensures s.result.Success? <==> isUuid(postId) && postId in PostIds(t.posts) && w in t.users
    ensures s.result.Success? ==>
      && s.result.value.comment == Comment(newId, postId, w, content, now)
      && s.tables == t.(comments := t.comments + [Comment(newId, postId, w, content, now)])
    ensures s.result.Success? ==>
      var views := s.result.value.comments;
      && SortedBy(CommentsIn(views), CommentTime)
      && multiset(CommentsIn(views)) == multiset(CommentsOf(s.tables.comments, postId))
      && s.result.value.comment in CommentsIn(views)
      && forall i :: 0 <= i < |views| ==> views[i].commentedBy == AuthorOf(t.users, views[i].comment.wallet)
    ensures s.result.Success? ==>
      && Some(s.result.value.post) == FindPost(t.posts, postId)
      && Some(s.result.value.postUser) == AuthorOf(t.users, s.result.value.post.wallet)
      && s.result.value.likes == LikesOf(t.likes, postId)
  {
    if !isUuid(postId) then PostStep(Failure(InvalidPostId), t)
    else match LookupPost(t, isUuid, postId)
      case Failure(e) => PostStep(Failure(e), t)
      case Success(rec) =>
        match FindUser(t.users, w)
        case Failure(e) => PostStep(Failure(e), t)
        case Success(_) => SaveComment(t, rec, w, content, now, newId)
  }

  /** One feed entry: the post, its author (or None), its likes, its comments with their authors. */
  function ViewPost(t: Tables, p: Post): PostView {
    var cs := CommentsOf(t.comments, p.id);
    PostView(p, AuthorOf(t.users, p.wallet), LikesOf(t.likes, p.id),
      seq(|cs|, i requires 0 <= i < |cs| => CommentView(cs[i], AuthorOf(t.users, cs[i].wallet))))
  }

  /** `getPosts`: every post once, newest first, each reshaped by ViewPost. */
  function PostFeed(t: Tables): (feed: seq<PostView>)
    ensures |feed| == |t.posts|
    ensures forall i, j :: 0 <= i < j < |feed| ==> feed[i].post.timestamp >= feed[j].post.timestamp
    ensures multiset(seq(|feed|, i requires 0 <= i < |feed| => feed[i].post)) == multiset(t.posts)
    ensures forall i :: 0 <= i < |feed| ==> feed[i] == ViewPost(t, feed[i].post)
  {
    var rows := SortBy(t.posts, NewestFirst);
    assert multiset(rows) == multiset(t.posts);
    var feed := seq(|rows|, i requires 0 <= i < |rows| => ViewPost(t, rows[i]));
    assert forall i :: 0 <= i < |feed| ==> feed[i].post == rows[i];
    assert seq(|feed|, i requires 0 <= i < |feed| => feed[i].post) == rows;
    feed
  }

  /**
   * Toggle: two successful likes of the same (w, postId) in a row give back
   * the same liked pairs, and exactly the same likes table when the pair was
   * not liked to begin with.
   */
  lemma {:induction false} LikeTwice(t: Tables, isUuid: string -> bool, postId: string, w: string, id1: string, id2: string)
    requires Consistent(t)
    requires LikeStep(t, isUuid, postId, w, id1).result.Success?
    ensures var mid := LikeStep(t, isUuid, postId, w, id1).tables;
      var last := LikeStep(mid, isUuid, postId, w, id2);
      && last.result.Success?
      && LikedPairs(last.tables.likes) == LikedPairs(t.likes)
      && ((w, postId) !in LikedPairs(t.likes) ==> last.tables == t && last.result.value == None)
  {
    var first := LikeStep(t, isUuid, postId, w, id1);
    var mid := first.tables;
    var last := LikeStep(mid, isUuid, postId, w, id2);
    if (w, postId) !in LikedPairs(t.likes) {
      var l := Like(id1, w, postId);
      assert mid.likes == t.likes + {l};
      assert (w, postId) in LikedPairs(mid.likes);
      var m :| m in mid.likes && m.wallet == w && m.postId == postId && last.tables.likes == mid.likes - {m};
      assert m == l;
      assert l !in t.likes;
      assert last.tables.likes == t.likes;
    }
  }

  /** A like toggle leaves the likes of every other post as they were. */
  lemma LikeKeepsOtherPosts(t: Tables, isUuid: string -> bool, postId: string, w: string, newId: string, q: string)
    requires Consistent(t)
    requires q != postId
    ensures LikesOf(LikeStep(t, isUuid, postId, w, newId).tables.likes, q) == LikesOf(t.likes, q)
  {
  }

  /** A successful like toggle changes the number of likes of its post by exactly one. */
  lemma LikeCountChangesByOne(t: Tables, isUuid: string -> bool, postId: string, w: string, newId: string)
    requires Consistent(t)
    requires LikeStep(t, isUuid, postId, w, newId).result.Success?
    ensures var after := LikeStep(t, isUuid, postId, w, newId).tables;
      |LikesOf(after.likes, postId)|
        == if (w, postId) in LikedPairs(t.likes) then |LikesOf(t.likes, postId)| - 1
           else |LikesOf(t.likes, postId)| + 1
  {
    var s := LikeStep(t, isUuid, postId, w, newId);
    if (w, postId) in LikedPairs(t.likes) {
      var l :| l in t.likes && l.wallet == w && l.postId == postId && s.tables.likes == t.likes - {l};
      assert LikesOf(s.tables.likes, postId) == LikesOf(t.likes, postId) - {l};
    } else {
      var l := Like(newId, w, postId);
      assert s.tables.likes == t.likes + {l};
      assert l !in t.likes;
      assert LikesOf(s.tables.likes, postId) == LikesOf(t.likes, postId) + {l};
    }
  }

  /** The comments `commentOnPost` returns are the post's earlier comments and the new one. */
  lemma CommentReplyAddsOne(t: Tables, isUuid: string -> bool, postId: string, w: string, content: string, now: int, newId: string)
    requires Consistent(t)
    requires CommentStep(t, isUuid, postId, w, content, now, newId).result.Success?
    ensures var reply := CommentStep(t, isUuid, postId, w, content, now, newId).result.value;
      multiset(CommentsIn(reply.comments)) == multiset(CommentsOf(t.comments, postId)) + multiset{reply.comment}
  {
    var s := CommentStep(t, isUuid, postId, w, content, now, newId);
    CommentsOfAppend(t.comments, s.result.value.comment, postId);
  }

  /** A new post with the latest timestamp heads the feed. */
  lemma {:induction false} NewestPostFirst(t: Tables, w: string, content: string, now: int, newId: string)
    requires Consistent(t)
    requires newId !in PostIds(t.posts)
    requires w in t.users
    requires forall p :: p in t.posts ==> p.timestamp < now
    ensures var feed := PostFeed(CreatePostStep(t, w, content, now, newId).tables);
      |feed| > 0 && feed[0].post == Post(newId, w, content, now)
  {
    var post := Post(newId, w, content, now);
    var after := CreatePostStep(t, w, content, now, newId).tables;
    var feed := PostFeed(after);
    var posts := seq(|feed|, i requires 0 <= i < |feed| => feed[i].post);
    assert post in multiset(after.posts);
    var k :| 0 <= k < |posts| && posts[k] == post;
    assert feed[0].post.timestamp >= now;
    assert feed[0].post in multiset(after.posts);
    assert feed[0].post in after.posts;
  }

  /** A created post is then found by its id. */
  lemma CreateThenLookup(t: Tables, isUuid: string -> bool, w: string, content: string, now: int, newId: string)
    requires Consistent(t)
    requires newId !in PostIds(t.posts)
    requires w in t.users && isUuid(newId)
    ensures var after := CreatePostStep(t, w, content, now, newId).tables;
      var found := LookupPost(after, isUuid, newId);
      found.Success? && found.value.post == Post(newId, w, content, now)
      && found.value.likes == {} && found.value.comments == []
  {
    var post := Post(newId, w, content, now);
    var after := CreatePostStep(t, w, content, now, newId).tables;
    FindPostUnique(after.posts, post);
    CommentsOfNone(t.comments, newId);
    assert forall l :: l in t.likes ==> l.postId != newId;
    assert LikesOf(t.likes, newId) == {};
  }

  /** On consistent tables every post in the feed has its author, and every comment its author. */
  lemma FeedHasNoNullRelations(t: Tables)
    requires Consistent(t)
    ensures forall v :: v in PostFeed(t) ==> v.user.Some? && forall cv :: cv in v.comments ==> cv.commentedBy.Some?
  {
    var feed := PostFeed(t);
    forall v | v in feed
      ensures v.user.Some? && forall cv :: cv in v.comments ==> cv.commentedBy.Some?
    {
      var i :| 0 <= i < |feed| && feed[i] == v;
      assert v.post in multiset(t.posts) by {
        assert v.post == seq(|feed|, i requires 0 <= i < |feed| => feed[i].post)[i];
      }
    }
  }

  /** The posts service, over the posts, likes and comments tables and the users service. */
  class PostsService {
    const db: Db
    const usersService: UsersService
    /** `isUUID` of the validation library. */
    const isUuid: string -> bool

    constructor (repository: Db, users: UsersService, uuidCheck: string -> bool)
      requires users.db == repository
      ensures db == repository && usersService == users && isUuid == uuidCheck
      ensures Wired()
    {
      db := repository;
      usersService := users;
      isUuid := uuidCheck;
    }

    /** The users service works on the same database. */
    ghost predicate Wired() {
      usersService.db == db
    }

    /** `newId` is the generated UUID and `now` the clock reading. */
    method CreatePost(walletAddress: string, content: string, now: int, newId: string) returns (r: Result<Post, HttpError>)
      requires Wired() && db.Valid()
      requires newId !in PostIds(db.posts)
      modifies db
      ensures db.Valid()
      ensures PostStep(r, db.Snapshot()) == CreatePostStep(old(db.Snapshot()), walletAddress, content, now, newId)
    {
      var author := usersService.FindByWallet(walletAddress);
      if author.Failure? {
        return Failure(author.error);
      }
      var post := Post(newId, walletAddress, content, now);
      db.posts := db.posts + [post];
      r := Success(post);
    }

    method GetPosts() returns (feed: seq<PostView>)
      ensures feed == PostFeed(db.Snapshot())
    {
      var t := db.Snapshot();
      var rows := SortBy(t.posts, NewestFirst);
      feed := seq(|rows|, i requires 0 <= i < |rows| => ViewPost(t, rows[i]));
    }

    method GetPost(id: string) returns (r: Result<PostRecord, HttpError>)
      ensures r == LookupPost(db.Snapshot(), isUuid, id)
    {
      if !isUuid(id) {
        return Failure(InvalidPostId);
      }
      var found := FindPost(db.posts, id);
      if found.None? {
        return Failure(PostNotFound);
      }
      var post := found.value;
      r := Success(PostRecord(post, AuthorOf(db.users, post.wallet), LikesOf(db.likes, id), CommentsOf(db.comments, id)));
    }

    /** `newId` is the UUID the like gets if one is inserted. */
    method LikePost(postId: string, walletAddress: string, newId: string) returns (r: Result<Option<Like>, HttpError>)
      requires Wired() && db.Valid()
      modifies db
      ensures db.Valid()
      ensures PostStep(r, db.Snapshot()) == LikeStep(old(db.Snapshot()), isUuid, postId, walletAddress, newId)
    {
      if !isUuid(postId) {
        return Failure(InvalidPostId);
      }
      var post := GetPost(postId);
      if post.Failure? {
        return Failure(post.error);
      }
      var user := usersService.FindByWallet(walletAddress);
      if user.Failure? {
        return Failure(user.error);
      }
      if existing :| existing in db.likes && existing.wallet == walletAddress && existing.postId == postId {
        assert LikesBy(db.likes, walletAddress, postId) == {existing};
        db.likes := db.likes - {existing};
        return Success(None);
      }
      var like := Like(newId, walletAddress, post.value.post.id);
      db.likes := db.likes + {like};
      r := Success(Some(like));
    }

    /** `newId` is the comment's generated UUID and `now` the clock reading. */
    method CommentOnPost(postId: string, walletAddress: string, content: string, now: int, newId: string)
      returns (r: Result<CommentReply, HttpError>)
      requires Wired() && db.Valid()
      modifies db
      ensures db.Valid()
      ensures PostStep(r, db.Snapshot()) == CommentStep(old(db.Snapshot()), isUuid, postId, walletAddress, content, now, newId)
    {
      if !isUuid(postId) {
        return Failure(InvalidPostId);
      }
      var post := GetPost(postId);
      if post.Failure? {
        return Failure(post.error);
      }
      var user := usersService.FindByWallet(walletAddress);
      if user.Failure? {
        return Failure(user.error);
      }
      var rec := post.value;
      var comment := Comment(newId, rec.post.id, walletAddress, content, now);
      ghost var before := db.Snapshot();
      AppendCommentConsistent(before, comment);
      db.comments := db.comments + [comment];
      assert comment in db.comments;
      var listed := SortBy(CommentsOf(db.comments, postId), CommentTime);
      assert comment in multiset(listed);
      var authors := usersService.FindByWallets(WalletsOf(listed));
      var views := Enrich(listed, authors);
      r := Success(CommentReply(comment, rec.post, rec.user.value, rec.likes, views));
      assert PostStep(r, db.Snapshot()) == SaveComment(before, rec, walletAddress, content, now, newId);
    }
  }
}
