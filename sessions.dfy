/**
 * The authentication prelude the three handlers share: read the X-Token
 * header, look up `auth_<token>` in the session store, convert the stored
 * text to an ObjectId and find that user.
 */
module Sessions {
  import opened Wrappers
  import opened Records

  datatype AuthResult =
    | Authorized(user: ObjectId)
    | Unauthorized
    /** `ObjectId(redisToken)` threw: the stored session text is malformed. */
    | Throws

  /** The session store key of a token. */
  function SessionKey(token: string): (key: string)
    ensures |key| == |token| + 5 && key[..5] == "auth_" && key[5..] == token
  {
    "auth_" + token
  }

  /** Different tokens never share a session entry. */
  lemma SessionKeyInjective(a: string, b: string)
    requires a != b
    ensures SessionKey(a) != SessionKey(b)
  {
    assert SessionKey(a)[5..] == a && SessionKey(b)[5..] == b;
  }

  /** A session entry serves only its own token: storing a session for
      one token changes the outcome of no other token's authentication. */
  lemma SessionServesOwnToken(token: string, text: string, other: Option<string>,
                              redis: map<string, string>, users: set<ObjectId>, parse: IdParser)
    requires other != Some(token)
    ensures Authenticate(other, redis[SessionKey(token) := text], users, parse)
         == Authenticate(other, redis, users, parse)
  {
    if other.Some? {
      SessionKeyInjective(other.value, token);
    }
  }

  /** The stored session text for a header value, when the header is
      present and non-empty and the store holds a non-empty text for it. */
  function SessionText(token: Option<string>, redis: map<string, string>): (r: Option<string>)
    ensures r.Some? <==> token.Some? && token.value != "" && SessionKey(token.value) in redis
                          && redis[SessionKey(token.value)] != ""
    ensures r.Some? ==> r.value == redis[SessionKey(token.value)]
  {
    if token.None? || token.value == "" then None
    else if SessionKey(token.value) !in redis then None
    else if redis[SessionKey(token.value)] == "" then None
    else Some(redis[SessionKey(token.value)])
  }

  /** Resolve the requesting user. Fails closed: a missing or empty header,
      no session entry and a session whose user is not in `users` all give
      `Unauthorized`. */
  function Authenticate(token: Option<string>, redis: map<string, string>,
                        users: set<ObjectId>, parse: IdParser): (r: AuthResult)
    ensures r.Authorized? <==>
      SessionText(token, redis).Some? && parse(SessionText(token, redis).value).Some?
      && parse(SessionText(token, redis).value).value in users
    ensures r.Authorized? ==>
      r.user in users && parse(SessionText(token, redis).value) == Some(r.user)
    ensures r.Throws? <==>
      SessionText(token, redis).Some? && !ValidId(parse, SessionText(token, redis).value)
    ensures token.None? || token == Some("") ==> r == Unauthorized
  {
    match SessionText(token, redis)
    case None => Unauthorized
    case Some(text) =>
      match parse(text)
      case None => Throws
      case Some(id) => if id in users then Authorized(id) else Unauthorized
  }
}
