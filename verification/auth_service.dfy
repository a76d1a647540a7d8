/**
 * Wallet verification: recover the signer of a message and compare it with
 * the claimed address without regard to letter case; and the find-or-create
 * of the user row for a wallet.
 */
module Auth {
  import opened Wrappers
  import opened Entities
  import opened Store

  /**
   * Signature recovery (`ethers.utils.verifyMessage(message, signature)`):
   * the recovered address, or None where the library throws.
   */
  type Recover = (string, string) -> Option<string>

  /** `toLowerCase` on one character, for the ASCII letters. */
  function LowerChar(c: char): char {
    if 'A' <= c <= 'Z' then (c as int - 'A' as int + 'a' as int) as char else c
  }

  /** `toLowerCase` on a string. */
  function Lower(s: string): (r: string)
    ensures |r| == |s|
    ensures forall i :: 0 <= i < |s| ==> r[i] == LowerChar(s[i])
  {
    if s == [] then [] else [LowerChar(s[0])] + Lower(s[1..])
  }

  /** x and y are the same character, or the same ASCII letter in the two cases. */
  predicate SameLetter(x: char, y: char) {
    || x == y
    || ('A' <= x <= 'Z' && y as int == x as int + 32)
    || ('A' <= y <= 'Z' && x as int == y as int + 32)
  }

  /** a and b spell the same address up to the case of their letters. */
  predicate EqualIgnoringCase(a: string, b: string) {
    |a| == |b| && forall i :: 0 <= i < |a| ==> SameLetter(a[i], b[i])
  }

  lemma LowerCharSame(x: char, y: char)
    ensures LowerChar(x) == LowerChar(y) <==> SameLetter(x, y)
  {
  }

  /** Comparing lower-cased strings is comparing up to letter case. */
  lemma LowerEqual(a: string, b: string)
    ensures Lower(a) == Lower(b) <==> EqualIgnoringCase(a, b)
  {
    if Lower(a) == Lower(b) {
      forall i | 0 <= i < |a| ensures SameLetter(a[i], b[i]) {
        assert Lower(a)[i] == Lower(b)[i];
        LowerCharSame(a[i], b[i]);
      }
    }
    if EqualIgnoringCase(a, b) {
      forall i | 0 <= i < |a| ensures Lower(a)[i] == Lower(b)[i] {
        LowerCharSame(a[i], b[i]);
      }
    }
  }

  /** Lower-casing twice is lower-casing once. */
  lemma LowerIdempotent(s: string)
    ensures Lower(Lower(s)) == Lower(s)
  {
  }

  /**
   * `verifyWallet`: true exactly when recovery succeeds and the recovered
   * address equals the claimed one up to letter case; a recovery error is
   * false, never an exception.
   */
  function Verify(recover: Recover, message: string, signature: string, wallet: string): (ok: bool)
    ensures ok <==> recover(message, signature).Some? && EqualIgnoringCase(recover(message, signature).value, wallet)
    ensures recover(message, signature).None? ==> !ok
  {
    match recover(message, signature)
    case None => false
    case Some(recovered) =>
      LowerEqual(recovered, wallet);
      Lower(recovered) == Lower(wallet)
  }

  /** Changing the letter case of the claimed address does not change the verdict. */
  lemma VerifyIgnoresCase(recover: Recover, message: string, signature: string, a: string, b: string)
    requires EqualIgnoringCase(a, b)
    ensures Verify(recover, message, signature, a) == Verify(recover, message, signature, b)
  {
    LowerEqual(a, b);
    match recover(message, signature)
    case None =>
    case Some(r) =>
      LowerEqual(r, a);
      LowerEqual(r, b);
  }

  /** The user a call returns, and the users table after it. */
  datatype Found = Found(user: User, users: map<string, Profile>)

  /**
   * `findOrCreateUser`: the row whose key equals w exactly, or a new row with
   * an empty profile.
   */
  function FindOrCreateStep(users: map<string, Profile>, w: string): (s: Found)
    ensures s.user.wallet == w && w in s.users && s.users[w] == s.user.profile
    ensures w in users ==> s == Found(User(w, users[w]), users)
    ensures w !in users ==>
      && s.user == User(w, EmptyProfile)
      && s.users.Keys == users.Keys + {w}
      && |s.users| == |users| + 1
      && (forall v :: v in users ==> s.users[v] == users[v])
  {
    if w in users then Found(User(w, users[w]), users)
    else Found(User(w, EmptyProfile), users[w := EmptyProfile])
  }

  /** A second find-or-create of the same wallet returns the same user and changes nothing. */
  lemma FindOrCreateIdempotent(users: map<string, Profile>, w: string)
    ensures var once := FindOrCreateStep(users, w);
      FindOrCreateStep(once.users, w) == once
  {
  }

  /** The auth service: the signature check, and the users table for find-or-create. */
  class AuthService {
    const db: Db
    const recover: Recover

    constructor (repository: Db, recovery: Recover)
      ensures db == repository && recover == recovery
    {
      db := repository;
      recover := recovery;
    }

    /** Reads no table: the verdict depends only on the three strings. */
    method VerifyWallet(message: string, signedMessage: string, walletAddress: string) returns (ok: bool)
      ensures ok == Verify(recover, message, signedMessage, walletAddress)
    {
      var recovered := recover(message, signedMessage);
      if recovered.None? {
        return false;
      }
      ok := Lower(recovered.value) == Lower(walletAddress);
      LowerEqual(recovered.value, walletAddress);
    }

    method FindOrCreateUser(walletAddress: string) returns (user: User)
      requires db.Valid()
      modifies db
      ensures db.Valid()
      ensures Found(user, db.users) == FindOrCreateStep(old(db.users), walletAddress)
      ensures db.posts == old(db.posts) && db.likes == old(db.likes) && db.comments == old(db.comments)
    {
      if walletAddress in db.users {
        return User(walletAddress, db.users[walletAddress]);
      }
      user := User(walletAddress, EmptyProfile);
      db.users := db.users[walletAddress := user.profile];
    }
  }
}
