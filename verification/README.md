# Wallet-authenticated social posting backend, modelled in Dafny

This project models the service layer of a small social-posting backend. The
backend has four tables:

- **users**, keyed by the exact wallet-address string. Each row holds an optional username, bio and picture URL.
- **posts**, with an author wallet, content and a timestamp.
- **likes**, at most one per (wallet, post).
- **comments**, each on a post by a wallet, with a timestamp.

The services read and change these tables:

- **Users service**: look up a user by exact wallet, create a user unless the wallet is taken, merge a partial profile, and look up many wallets at once.
- **Posts service**: create a post, list the feed newest first, fetch one post, toggle a like, and comment on a post. Commenting re-reads the post's comments in ascending timestamp order and joins each one to its author.
- **Auth service and `POST /auth/verify` endpoint**:
  - Recover the signer of a message and compare the recovered address with the claimed one, ignoring letter case.
  - On success, find or create the user row for the claimed wallet.

Layout, one module per file:

- `wrappers.dfy` holds Option and Result.
- `entities.dfy` holds the row types and the HTTP exceptions, with their exact messages.
- `ordering.dfy` holds the stable sort by key that stands for the repository's `order` option.
- `store.dfy` holds the tables:
  - `Tables` is a snapshot value of the four tables.
  - `Consistent` states the schema's constraints: the unique (wallet, post) pair of likes, distinct post ids, and that every post, like and comment names a known user by its wallet and every like and comment names a known post.
  - The class `Db` holds the four tables as fields that the services reassign.
- `users_service.dfy`, `posts_service.dfy`, `auth_service.dfy` and `auth_controller.dfy` each model one source file in the same pattern:
  - Pure step functions say what a call returns and what the tables are afterwards.
  - Lemmas relate several calls.
  - A service class has methods that do the work step by step, with the same checks in the same order. Each method's postcondition ties its result and the new database state to the step function.

Three foreign pieces are parameters:

- The UUID check (`isUUID`) is a `string -> bool` field of `PostsService`.
- Signature recovery (`ethers.utils.verifyMessage`) is a `(string, string) -> Option<string>` field of `AuthService`. None stands for a throw.
- The clock (`new Date()`) and generated UUIDs are method arguments (`now`, `newId`).

The model exposes one quirk of the source. Verification compares addresses
in lower case, but the users table is keyed by the exact string. So a
registered signer who claims their address in another letter case passes
verification and gets a second user row. `AuthHttp.CaseVariantAddsSecondRow`
proves this, and `AuthHttp.CaseVariantExample` shows it for "0xAB" and "0xab".

## Model

| member | source | states |
|---|---|---|
| `Store.FindPost` | backend/src/posts/posts.service.ts:80-84 | finds a post with the requested id, and finds none exactly when no post has that id |
| `Store.FindPostUnique` | backend/src/entities/post.entity.ts:8-9 | with distinct primary keys, the lookup by id returns the one post that has that id |
| `Store.CommentsOf` | backend/src/posts/posts.service.ts:152-155 | the comments relation of a post holds exactly the comments whose post id matches |
| `Store.CommentsOfAppend` | backend/src/posts/posts.service.ts:150-155 | appending a comment adds it to its own post's comment list and to no other |
| `Store.CommentsOfNone` | backend/src/posts/posts.service.ts:82 | a post that no comment refers to has an empty comments relation |
| `Ordering.Insert` | backend/src/posts/posts.service.ts:152-155 | inserting into a sorted list keeps it sorted and adds exactly that element |
| `Ordering.SortBy` | backend/src/posts/posts.service.ts:36-39 | the ordered result is sorted by the key and is a permutation of the rows |
| `Users.UpdateProfileStep` | backend/src/users/users.service.ts:26-34 | unknown wallet: NotFound and nothing changes; known wallet: fields present in the patch are overwritten, absent ones keep their values, other users and the key set are unchanged, and the merged user is returned |
| `Users.CreateUserStep` | backend/src/users/users.service.ts:36-45 | existing wallet: BadRequest "User already exists" and the table is unchanged; new wallet: exactly one row with an empty profile is added and no other row changes |
| `Users.UsersAmongIsFindUser` | backend/src/users/users.service.ts:55-59 | for a non-empty list, `findByWallets` returns a user exactly when `findByWallet` finds that user for some wallet of the list |
| `Users.UpdateThenFind` | backend/src/users/users.service.ts:26-34 | after a successful update, looking up the wallet returns the user the update returned, and every other wallet looks up as before |
| `Users.CreateTwice` | backend/src/users/users.service.ts:36-45 | creating the same new wallet twice in a row: the first call succeeds, the second fails and changes nothing |
| `Users.CreateThenFind` | backend/src/users/users.service.ts:43-44 | a created user is then found, with an empty profile |
| `Users.UpdateTwice` | backend/src/users/users.service.ts:32 | two successive updates equal one update with the merged patch, as `Object.assign` composes |
| `Users.UpdateIdempotent` | backend/src/users/users.service.ts:32-33 | repeating an update changes nothing more, and an empty patch changes nothing |
| `Users.UsersService.FindByWallet` | backend/src/users/users.service.ts:14-24 | the method returns what `FindUser` specifies on the current users table |
| `Users.UsersService.UpdateProfile` | backend/src/users/users.service.ts:26-34 | the result and the new users table are those of `UpdateProfileStep`; the other tables and the table constraints are kept |
| `Users.UsersService.CreateUser` | backend/src/users/users.service.ts:36-45 | the result and the new users table are those of `CreateUserStep`; the other tables and the table constraints are kept |
| `Users.UsersService.FindByWallets` | backend/src/users/users.service.ts:55-59 | returns the users `UsersAmong` specifies |
| `Posts.LookupPost` | backend/src/posts/posts.service.ts:76-86 | non-UUID id: BadRequest "Invalid post ID format"; unknown id: NotFound "Post not found"; otherwise the post with that id, with its user, its likes and its comments |
| `Posts.CreatePostStep` | backend/src/posts/posts.service.ts:17-26 | unknown author: NotFound and nothing changes; otherwise exactly one post with the given wallet, content and timestamp is appended, nothing else changes, and the constraints hold |
| `Posts.LikesBy` | backend/src/posts/posts.service.ts:96-101 | the like lookup for (wallet, post) returns only rows of the likes table with that wallet and post, is empty exactly when that pair is not liked, and holds a single row under the unique pair constraint |
| `Posts.LikeStep` | backend/src/posts/posts.service.ts:88-115 | checks the id format, then the post, then the user, and leaves every table unchanged on each error; on success it removes exactly the existing like of the pair and returns null, or inserts exactly one like with that wallet and post and returns it; liked pairs are toggled, the unique pair constraint is kept, and users, posts and comments are unchanged |
| `Posts.EnrichJoinsByWallet` | backend/src/posts/posts.service.ts:157-173 | joining the comments to `findByWallets` of their own wallets gives each comment the user whose key equals its wallet exactly, or none |
| `Posts.RereadComments` | backend/src/posts/posts.service.ts:152-173 | the re-read list is sorted by non-decreasing timestamp, is a permutation of the post's comments, and each entry carries its author's row or none |
| `Posts.SaveComment` | backend/src/posts/posts.service.ts:142-194 | appends exactly one comment and returns it with the post, the post's author, its likes and its re-read comments |
| `Posts.AppendCommentConsistent` | backend/src/entities/comment.entity.ts:17-23 | a comment by a known user on a known post keeps the table constraints |
| `Posts.CommentStep` | backend/src/posts/posts.service.ts:134-195 | checks the id format, then the post, then the user, and leaves the tables unchanged on each error; on success it appends exactly one comment and returns the post's comments, including the new one, sorted by non-decreasing timestamp, each joined to its author by exact wallet |
| `Posts.PostFeed` | backend/src/posts/posts.service.ts:35-70 | every post appears once, in non-increasing timestamp order, each with its author (null when missing), its likes and its comments with their authors (null when missing) |
| `Posts.LikeKeepsOtherPosts` | backend/src/posts/posts.service.ts:96-114 | a like toggle leaves the likes relation of every other post unchanged |
| `Posts.LikeCountChangesByOne` | backend/src/posts/posts.service.ts:103-114 | a successful toggle lowers the post's like count by one when the pair was liked and raises it by one when it was not |
| `Posts.LikeTwice` | backend/src/posts/posts.service.ts:103-114 | two successful likes of the same pair in a row restore the liked pairs, and restore the exact likes table when the pair was not liked |
| `Posts.CommentReplyAddsOne` | backend/src/posts/posts.service.ts:150-155 | the returned comments are the post's earlier comments plus the new one |
| `Posts.NewestPostFirst` | backend/src/posts/posts.service.ts:36-39 | a post created with a timestamp later than every other post heads the feed |
| `Posts.CreateThenLookup` | backend/src/posts/posts.service.ts:19-25 | a created post is then found by its id, with no likes and no comments |
| `Posts.FeedHasNoNullRelations` | backend/src/posts/posts.service.ts:46-67 | when the constraints hold, no feed entry has a null user and no comment has a null author |
| `Posts.PostsService.CreatePost` | backend/src/posts/posts.service.ts:17-26 | the result and the new tables are those of `CreatePostStep`; the constraints are kept |
| `Posts.PostsService.GetPosts` | backend/src/posts/posts.service.ts:35-70 | returns the feed `PostFeed` specifies |
| `Posts.PostsService.GetPost` | backend/src/posts/posts.service.ts:76-86 | returns what `LookupPost` specifies |
| `Posts.PostsService.LikePost` | backend/src/posts/posts.service.ts:88-115 | the result and the new tables are those of `LikeStep`; the constraints are kept |
| `Posts.PostsService.CommentOnPost` | backend/src/posts/posts.service.ts:134-195 | the result and the new tables are those of `CommentStep`; the constraints are kept |
| `Auth.Lower` | backend/src/auth/auth.service.ts:33 | lower-casing keeps the length and lower-cases each character |
| `Auth.LowerCharSame` | backend/src/auth/auth.service.ts:33 | two characters lower-case to the same one exactly when they are the same letter up to case |
| `Auth.LowerEqual` | backend/src/auth/auth.service.ts:33 | two strings are equal after lower-casing exactly when they are equal up to letter case |
| `Auth.LowerIdempotent` | backend/src/auth/auth.service.ts:33 | lower-casing twice is the same as lower-casing once |
| `Auth.Verify` | backend/src/auth/auth.service.ts:30-37 | true exactly when recovery succeeds and the recovered address equals the claimed one up to letter case; a recovery error gives false, never an exception |
| `Auth.VerifyIgnoresCase` | backend/src/auth/auth.service.ts:33 | changing the letter case of the claimed address does not change the verdict |
| `Auth.FindOrCreateStep` | backend/src/auth/auth.service.ts:40-53 | a present wallet returns its row unchanged and leaves the table alone; an absent wallet adds exactly one row with an empty profile and returns it |
| `Auth.FindOrCreateIdempotent` | backend/src/auth/auth.service.ts:40-53 | a second find-or-create of the same wallet returns the same user and leaves the table unchanged |
| `Auth.AuthService.VerifyWallet` | backend/src/auth/auth.service.ts:30-37 | returns the verdict of `Verify`; it has no table in its frame and changes nothing |
| `Auth.AuthService.FindOrCreateUser` | backend/src/auth/auth.service.ts:40-53 | the result and the new users table are those of `FindOrCreateStep`; the other tables and the constraints are kept |
| `AuthHttp.VerifyEndpoint` | backend/src/auth/auth.controller.ts:25-41 | success exactly when the verifier accepts the request's own message, signature and address; on success the reply and the users table are exactly those of find-or-create on the exact claimed wallet, so an existing row is returned unchanged and a new wallet gets one row with an empty profile; otherwise "Invalid signature" and the users table is unchanged |
| `AuthHttp.VerifyTwice` | backend/src/auth/auth.controller.ts:35-38 | repeating a verification request changes nothing the second time |
| `AuthHttp.CaseVariantAddsSecondRow` | backend/src/auth/auth.service.ts:30-53 | a signer registered under one spelling who claims another letter-case spelling is verified, and a second row is added; both rows now verify for the same signature |
| `AuthHttp.CaseVariantExample` | backend/src/auth/auth.service.ts:41-43 | with "0xAB" registered and recovered, a request claiming "0xab" succeeds and leaves rows for both spellings |
| `AuthHttp.AuthController.VerifyWallet` | backend/src/auth/auth.controller.ts:25-41 | the reply and the new users table are those of `VerifyEndpoint`; the other tables and the constraints are kept |

## Left out

- HTTP routing, request validation pipes, dependency-injection wiring, database configuration, and the posts and users controllers are not modelled. The two controllers only pass their arguments through.
- Concurrency is not modelled. Each call is one sequential step. The database's enforcement of the unique like pair under concurrent requests is stated only as the invariant `Consistent` that the sequential steps keep.
- The 280-character limits on post and comment content are enforced by the database columns, not by the services. They are not modelled.
- `findByWallets` with an empty list has no model, because the ORM defines what `where: []` returns. `Users.UsersAmong` requires a non-empty list. In `commentOnPost` the list always holds the new comment's wallet.
- `updateProfile` is modelled only for the three profile fields. What the ORM does when `Object.assign` overwrites the primary key `wallet_address` is not modelled. A JSON request body cannot carry `undefined`, so the model has only absent keys and keys set to null. (Had a caller passed `undefined`, the ORM would skip that column on save and keep its old value.)
- Auth.Lower: lower-cases only the ASCII letters. JavaScript's `toLowerCase` also maps non-ASCII letters, so the model differs from the source on such input. Ethereum addresses are `0x` followed by hexadecimal digits.
- Signature recovery is a parameter with no properties. Cryptographic soundness of recovery, and the absence of replay protection, are outside the model.
- `isUUID` is a parameter with no properties.
- Ordering.SortBy: the database leaves the order of rows with equal timestamps unspecified. The model fixes one such order, table order among equal timestamps, so the exact sequence it returns for tied rows may differ from the database's. Its contract states only what every correct order shares: sorted by the key and a permutation of the rows.
- The comments relation loaded by `getPost` and `getPosts` has no `order` option. The model lists those comments in table order.
- Generated UUIDs and clock readings are arguments. `CreatePost` requires the new post id to be unused, which stands for the UUID generator's guarantee. Like and comment ids carry no such requirement because no invariant depends on them. Timestamps are integers.
- A missing commenter in `commentOnPost` is an object whose four fields are all `undefined`. The model writes this as None.
- If a post's author row were missing, `commentOnPost` would fail with a type error when it reads `post.user.wallet_address`. This cannot happen under `Consistent`, because every post's author has a row. The model therefore has no case for it.
- No core operation deletes a post or a user, so the cascade deletes on likes and comments are not modelled. `likePost` deletes a like row, and that is modelled.
- `createPost`, `likePost` and `commentOnPost` never create a missing user. They fail with NotFound (backend/src/posts/posts.service.ts:18, 94, 140).
- Store.FindPost: compares post ids as exact strings. The database's `uuid` columns compare ids regardless of the letter case of their hexadecimal digits, and the UUID check accepts upper-case digits. So a request that spells an existing id in another letter case finds the post in the source but gets NotFound in the model. The model assumes that requests spell ids as they are stored.
- The user relations of posts and comments use their own join columns (backend/src/entities/post.entity.ts:11-12 uses the default join column; backend/src/entities/comment.entity.ts:21-23 uses `user_wallet_address`), separate from the `wallet_address` column. The model has only one wallet per row. This is faithful because `createPost` (backend/src/posts/posts.service.ts:18-23) and `commentOnPost` (backend/src/posts/posts.service.ts:142-148) fill both columns from the same wallet, and they are the only writers of those rows.
