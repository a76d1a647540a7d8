/**
 * The user directory: look up a user by exact wallet, create a user unless the
 * wallet is taken, merge a partial profile into a user, and look up several
 * wallets at once.
 */
module Users {
  import opened Wrappers
  import opened Entities
  import opened Store

  /** `findByWallet`: the row whose key equals w exactly, or NotFound. */
  function FindUser(users: map<string, Profile>, w: string): (r: Result<User, HttpError>)
    ensures r.Success? <==> w in users
    ensures r.Success? ==> r.value.wallet == w && r.value.profile == users[w]
    ensures r.Failure? ==> r.error == UserNotFound
  {
    match AuthorOf(users, w)
    case None => Failure(UserNotFound)
    case Some(u) => Success(u)
  }

  /**
   * A partial profile, as `Object.assign` reads it: None means the key is
   * absent from the update, Some(None) means it is present and null.
   */
  datatype ProfilePatch = ProfilePatch(
    username: Option<Option<string>>,
    bio: Option<Option<string>>,
    pictureUrl: Option<Option<string>>)

  const NoChange := ProfilePatch(None, None, None)

  function Pick(update: Option<Option<string>>, current: Option<string>): Option<string> {
    if update.Some? then update.value else current
  }

  /** `Object.assign(user, patch)` on the profile columns. */
  function Apply(p: Profile, patch: ProfilePatch): Profile {
    Profile(Pick(patch.username, p.username), Pick(patch.bio, p.bio), Pick(patch.pictureUrl, p.pictureUrl))
  }

  /** `Object.assign({}, first, second)`: the keys of second win over those of first. */
  function Then(first: ProfilePatch, second: ProfilePatch): ProfilePatch {
    ProfilePatch(
      if second.username.Some? then second.username else first.username,
      if second.bio.Some? then second.bio else first.bio,
      if second.pictureUrl.Some? then second.pictureUrl else first.pictureUrl)
  }

  /** What a call returns, and the users table after it. */
  datatype UserStep = UserStep(result: Result<User, HttpError>, users: map<string, Profile>)

  /** `updateProfile`: merge the patch into the user's row, or NotFound. */
  function UpdateProfileStep(users: map<string, Profile>, w: string, patch: ProfilePatch): (s: UserStep)
    ensures w !in users ==> s == UserStep(Failure(UserNotFound), users)
    ensures w in users ==>
      && s.users.Keys == users.Keys
      && (forall v :: v in users && v != w ==> s.users[v] == users[v])
      && s.result == Success(User(w, s.users[w]))
    ensures w in users && patch.username.Some? ==> s.users[w].username == patch.username.value
    ensures w in users && patch.username.None? ==> s.users[w].username == users[w].username
    ensures w in users && patch.bio.Some? ==> s.users[w].bio == patch.bio.value
    ensures w in users && patch.bio.None? ==> s.users[w].bio == users[w].bio
    ensures w in users && patch.pictureUrl.Some? ==> s.users[w].pictureUrl == patch.pictureUrl.value
    ensures w in users && patch.pictureUrl.None? ==> s.users[w].pictureUrl == users[w].pictureUrl
  {
    match FindUser(users, w)
    case Failure(e) => UserStep(Failure(e), users)
    case Success(user) =>
      var updated := User(w, Apply(user.profile, patch));
      UserStep(Success(updated), users[w := updated.profile])
  }

  /** `createUser`: BadRequest if the wallet has a row, else a row with an empty profile. */
  function CreateUserStep(users: map<string, Profile>, w: string): (s: UserStep)
    ensures w in users ==> s == UserStep(Failure(UserExists), users)
    ensures w !in users ==>
      && s.result == Success(User(w, EmptyProfile))
      && s.users.Keys == users.Keys + {w}
      && |s.users| == |users| + 1
      && s.users[w] == EmptyProfile
      && (forall v :: v in users ==> s.users[v] == users[v])
  {
    if w in users then UserStep(Failure(UserExists), users)
    else UserStep(Success(User(w, EmptyProfile)), users[w := EmptyProfile])
  }

  /** `findByWallets`: the rows whose key is one of the given wallets. */
  function UsersAmong(users: map<string, Profile>, wallets: seq<string>): (r: set<User>)
    requires |wallets| > 0
    ensures forall u :: u in r <==> u.wallet in users && u.wallet in wallets && u.profile == users[u.wallet]
    ensures forall u, v :: u in r && v in r && u.wallet == v.wallet ==> u == v
  {
    set w | w in users && w in wallets :: User(w, users[w])
  }

  /** Creating the same wallet twice in a row: the first call succeeds, the second fails and changes nothing. */
  lemma CreateTwice(users: map<string, Profile>, w: string)
    requires w !in users
    ensures CreateUserStep(users, w).result.Success?
    ensures var after := CreateUserStep(users, w).users;
      CreateUserStep(after, w) == UserStep(Failure(UserExists), after)
  {
  }

  /** A created user is then found, with an empty profile. */
  lemma CreateThenFind(users: map<string, Profile>, w: string)
    requires w !in users
    ensures FindUser(CreateUserStep(users, w).users, w) == Success(User(w, EmptyProfile))
  {
  }

  /** `findByWallets` returns exactly what `findByWallet` finds for some wallet of the list. */
  lemma UsersAmongIsFindUser(users: map<string, Profile>, wallets: seq<string>, u: User)
    requires |wallets| > 0
    ensures u in UsersAmong(users, wallets) <==> exists i :: 0 <= i < |wallets| && FindUser(users, wallets[i]) == Success(u)
  {
  }

  /** After a successful update the user is found with the updated profile; other wallets look up as before. */
  lemma UpdateThenFind(users: map<string, Profile>, w: string, patch: ProfilePatch)
    requires UpdateProfileStep(users, w, patch).result.Success?
    ensures var s := UpdateProfileStep(users, w, patch);
      && FindUser(s.users, w) == s.result
      && forall v :: v != w ==> FindUser(s.users, v) == FindUser(users, v)
  {
  }

  /** Two successive updates are one update with the merged patch. */
  lemma UpdateTwice(users: map<string, Profile>, w: string, first: ProfilePatch, second: ProfilePatch)
    ensures UpdateProfileStep(UpdateProfileStep(users, w, first).users, w, second)
         == UpdateProfileStep(users, w, Then(first, second))
  {
  }

  /** Repeating an update changes nothing more, and an empty patch changes nothing at all. */
  lemma UpdateIdempotent(users: map<string, Profile>, w: string, patch: ProfilePatch)
    ensures var once := UpdateProfileStep(users, w, patch);
      UpdateProfileStep(once.users, w, patch) == once
    ensures UpdateProfileStep(users, w, NoChange).users == users
  {
  }

  /** The users service over the users table of the database. */
  class UsersService {
    const db: Db

    constructor (repository: Db)
      ensures db == repository
    {
      db := repository;
    }

    method FindByWallet(walletAddress: string) returns (r: Result<User, HttpError>)
      ensures r == FindUser(db.users, walletAddress)
    {
      if walletAddress in db.users {
        r := Success(User(walletAddress, db.users[walletAddress]));
      } else {
        r := Failure(UserNotFound);
      }
    }

    method UpdateProfile(walletAddress: string, patch: ProfilePatch) returns (r: Result<User, HttpError>)
      requires db.Valid()
      modifies db
      ensures db.Valid()
      ensures UserStep(r, db.users) == UpdateProfileStep(old(db.users), walletAddress, patch)
      ensures db.posts == old(db.posts) && db.likes == old(db.likes) && db.comments == old(db.comments)
    {
      var found := FindByWallet(walletAddress);
      if found.Failure? {
        return Failure(found.error);
      }
      var user := User(walletAddress, Apply(found.value.profile, patch));
      db.users := db.users[walletAddress := user.profile];
      r := Success(user);
    }

    method CreateUser(walletAddress: string) returns (r: Result<User, HttpError>)
      requires db.Valid()
      modifies db
      ensures db.Valid()
      ensures UserStep(r, db.users) == CreateUserStep(old(db.users), walletAddress)
      ensures db.posts == old(db.posts) && db.likes == old(db.likes) && db.comments == old(db.comments)
    {
      if walletAddress in db.users {
        return Failure(UserExists);
      }
      var user := User(walletAddress, EmptyProfile);
      db.users := db.users[walletAddress := user.profile];
      r := Success(user);
    }

    method FindByWallets(walletAddresses: seq<string>) returns (r: set<User>)
      requires |walletAddresses| > 0
      ensures r == UsersAmong(db.users, walletAddresses)
    {
      r := set w | w in db.users && w in walletAddresses :: User(w, db.users[w]);
    }
  }
}
