/**
 * The `POST /auth/verify` endpoint: check the signature, and on success find
 * or create the user row for the claimed wallet.
 */
module AuthHttp {
  import opened Wrappers
  import opened Entities
  import opened Store
  import opened Auth

  /** The request body. */
  datatype VerifyRequest = VerifyRequest(message: string, signedMessage: string, walletAddress: string)

  /** `{ success: true, user }` or `{ success: false, message }`. */
  datatype VerifyReply = Verified(user: User) | Rejected(message: string)

  const InvalidSignature := "Invalid signature"

  /** What the endpoint replies, and the users table after it. */
  datatype EndpointStep = EndpointStep(reply: VerifyReply, users: map<string, Profile>)

  /**
   * The endpoint: the request's three strings go to the verifier as they
   * are; find-or-create runs on the claimed wallet only when it says true.
   */
  function VerifyEndpoint(users: map<string, Profile>, recover: Recover, req: VerifyRequest): (s: EndpointStep)
    ensures s.reply.Verified? <==> Verify(recover, req.message, req.signedMessage, req.walletAddress)
    ensures s.reply.Verified? ==>
      && s.reply.user.wallet == req.walletAddress
      && req.walletAddress in s.users && s.users[req.walletAddress] == s.reply.user.profile
      && s.users.Keys == users.Keys + {req.walletAddress}
      && (forall v :: v in users ==> s.users[v] == users[v])
    ensures s.reply.Verified? ==> Found(s.reply.user, s.users) == FindOrCreateStep(users, req.walletAddress)
    ensures s.reply.Verified? && req.walletAddress !in users ==> s.reply.user.profile == EmptyProfile
    ensures s.reply.Rejected? ==> s == EndpointStep(Rejected(InvalidSignature), users)
  {
    if Verify(recover, req.message, req.signedMessage, req.walletAddress) then
      var found := FindOrCreateStep(users, req.walletAddress);
      EndpointStep(Verified(found.user), found.users)
    else
      EndpointStep(Rejected(InvalidSignature), users)
  }

  /** Verifying twice with the same request changes nothing the second time. */
  lemma VerifyTwice(users: map<string, Profile>, recover: Recover, req: VerifyRequest)
    ensures var once := VerifyEndpoint(users, recover, req);
      VerifyEndpoint(once.users, recover, req) == once
  {
    FindOrCreateIdempotent(users, req.walletAddress);
  }

  /**
   * The users table is keyed by the exact string while verification ignores
   * letter case: a signer registered under one spelling of its address who
   * claims another spelling is verified and gets a second row, so two rows
   * now pass verification for the same signature.
   */
  lemma CaseVariantAddsSecondRow(users: map<string, Profile>, recover: Recover, message: string, signature: string, a: string, b: string)
    requires recover(message, signature) == Some(a)
    requires a in users && b !in users && EqualIgnoringCase(a, b)
    ensures var s := VerifyEndpoint(users, recover, VerifyRequest(message, signature, b));
      && s.reply.Verified? && s.reply.user.wallet == b
      && a in s.users && b in s.users && a != b
      && |s.users| == |users| + 1
      && Verify(recover, message, signature, a) && Verify(recover, message, signature, b)
  {
    assert EqualIgnoringCase(a, a);
    VerifyIgnoresCase(recover, message, signature, a, b);
  }

  /** An instance: "0xAB" registered, the same signer claims "0xab". */
  lemma CaseVariantExample()
    ensures var users := map["0xAB" := EmptyProfile];
      var s := VerifyEndpoint(users, (m: string, sig: string) => Some("0xAB"), VerifyRequest("msg", "sig", "0xab"));
      s.reply == Verified(User("0xab", EmptyProfile)) && s.users.Keys == {"0xAB", "0xab"}
  {
    var users := map["0xAB" := EmptyProfile];
    var recover: Recover := (m: string, sig: string) => Some("0xAB");
    assert SameLetter('A', 'a') && SameLetter('B', 'b');
    assert EqualIgnoringCase("0xAB", "0xab");
    CaseVariantAddsSecondRow(users, recover, "msg", "sig", "0xAB", "0xab");
  }

  /** The auth controller over the auth service. */
  class AuthController {
    const auth: AuthService

    constructor (service: AuthService)
      ensures auth == service
    {
      auth := service;
    }

    method VerifyWallet(body: VerifyRequest) returns (reply: VerifyReply)
      requires auth.db.Valid()
      modifies auth.db
      ensures auth.db.Valid()
      ensures EndpointStep(reply, auth.db.users) == VerifyEndpoint(old(auth.db.users), auth.recover, body)
      ensures auth.db.posts == old(auth.db.posts) && auth.db.likes == old(auth.db.likes)
      ensures auth.db.comments == old(auth.db.comments)
    {
      var isValid := auth.VerifyWallet(body.message, body.signedMessage, body.walletAddress);
      if isValid {
        var user := auth.FindOrCreateUser(body.walletAddress);
        return Verified(user);
      }
      reply := Rejected(InvalidSignature);
    }
  }
}
