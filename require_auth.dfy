/**
 * The bearer gate that guards the authenticated routes. It checks that the
 * `Authorization` header starts with "Bearer", takes the token as the second
 * piece of the header split on single spaces, verifies it, and then either
 * attaches the payload's id to the request and calls the next handler once,
 * or answers 401. Token verification (`jwt.verify` with the server secret)
 * is a parameter: a partial function from token text to payload.
 */
module RequireAuth {
  import opened Wrappers
  import opened Http
  import opened JsString

  /** The decoded token payload; `id` may be absent from it. */
  datatype Payload = Payload(id: Option<string>)

  /** What the gate does: answer with an error, or pass the request on with a user id. */
  datatype Gate = Refuse(reply: Reply) | Pass(userId: Option<string>)

  const Unauthorized := Reply(401, "Unauthorized")
  const InvalidToken := Reply(401, "Invalid token")

  /** The header is present, non-empty and starts with "Bearer" (case-sensitive, no space required). */
  predicate BearerHeader(header: Option<string>) {
    header.Some? && header.value != "" && StartsWith(header.value, "Bearer")
  }

  /** `header.split(' ')[1]`: `undefined` when the header holds no space. */
  function TokenOf(header: string): (token: Option<string>)
    ensures token.Some? <==> ' ' in header
    ensures token.Some? ==> ' ' !in token.value
  {
    var parts := Split(header, ' ');
    if |parts| >= 2 then Some(parts[1]) else None
  }

  /** The gate's decision for a header, given the token verifier. */
  function Decide(header: Option<string>, verify: string -> Option<Payload>): (g: Gate)
    ensures g.Refuse? ==> g.reply.status == 401
    ensures g == Refuse(Unauthorized) <==> !BearerHeader(header)
  {
    if !BearerHeader(header) then Refuse(Unauthorized)
    else
      match TokenOf(header.value)
      case None => Refuse(InvalidToken)
      case Some(token) =>
        match verify(token)
        case None => Refuse(InvalidToken)
        case Some(payload) => Pass(payload.id)
  }

  /** An incoming request: its header, the attached user id, the calls of `next` and the reply sent. */
  class Request {
    var authorization: Option<string>
    var userId: Option<string>
    var nextCalls: nat
    var response: Option<Reply>

    constructor (authorization: Option<string>)
      ensures this.authorization == authorization
      ensures userId == None && nextCalls == 0 && response == None
    {
      this.authorization := authorization;
      userId := None;
      nextCalls := 0;
      response := None;
    }
  }

  /**
   * `requireAuth(req, res, next)`: a refusal sets the reply and leaves the
   * user id and `next` alone; a pass sets the user id from the payload and
   * calls `next` exactly once, sending no reply.
   */
  method RequireAuth(req: Request, verify: string -> Option<Payload>)
    modifies req
    ensures req.authorization == old(req.authorization)
    ensures Decide(old(req.authorization), verify).Refuse? ==>
      && req.response == Some(Decide(old(req.authorization), verify).reply)
      && req.userId == old(req.userId) && req.nextCalls == old(req.nextCalls)
    ensures Decide(old(req.authorization), verify).Pass? ==>
      && req.userId == Decide(old(req.authorization), verify).userId
      && req.nextCalls == old(req.nextCalls) + 1 && req.response == old(req.response)
  {
    var header := req.authorization;
    if header.None? || header.value == "" || !StartsWith(header.value, "Bearer") {
      req.response := Some(Unauthorized);
      return;
    }
    var token := TokenOf(header.value);
    if token.None? {
      req.response := Some(InvalidToken);
      return;
    }
    var payload := verify(token.value);
    if payload.None? {
      req.response := Some(InvalidToken);
      return;
    }
    req.userId := payload.value.id;
    req.nextCalls := req.nextCalls + 1;
  }

  /** The request passes exactly when the header is a bearer header whose token verifies. */
  lemma PassIff(header: Option<string>, verify: string -> Option<Payload>)
    ensures Decide(header, verify).Pass? <==>
      BearerHeader(header) && TokenOf(header.value).Some? && verify(TokenOf(header.value).value).Some?
    ensures Decide(header, verify).Pass? ==> Decide(header, verify).userId == verify(TokenOf(header.value).value).value.id
  {
  }

  /** With a bearer header, every refusal is "Invalid token". */
  lemma BearerRefusalIsInvalidToken(header: Option<string>, verify: string -> Option<Payload>)
    requires BearerHeader(header) && Decide(header, verify).Refuse?
    ensures Decide(header, verify).reply == InvalidToken
  {
  }

  /** "Bearer <token>" hands `<token>` to the verifier, up to the next space. */
  lemma TokenAfterBearer(prefix: string, token: string, rest: string)
    requires StartsWith(prefix, "Bearer") && ' ' !in prefix && ' ' !in token
    requires rest == [] || rest[0] == ' '
    ensures TokenOf(prefix + " " + token + rest) == Some(token)
  {
    SplitSecond(prefix, token, rest, ' ');
    assert prefix + " " + token + rest == prefix + [' '] + token + rest;
  }

  /** The word "Bearer" passes the prefix check and holds no space. */
  lemma BearerWord()
    ensures StartsWith("Bearer", "Bearer") && ' ' !in "Bearer"
  {
    var word := "Bearer";
    assert word[..|word|] == word;
    forall i | 0 <= i < |word| ensures word[i] != ' ' { }
  }

  /** "Bearer" alone has no token, so it is refused as an invalid token. */
  lemma BareBearerRefused(verify: string -> Option<Payload>)
    ensures Decide(Some("Bearer"), verify) == Refuse(InvalidToken)
  {
    BearerWord();
  }

  /** A double space after "Bearer" makes the token the empty string. */
  lemma DoubleSpaceEmptyToken(rest: string)
    requires rest == [] || rest[0] == ' '
    ensures TokenOf("Bearer " + " " + rest) == Some("")
  {
    var tail := " " + rest;
    BearerWord();
    TokenAfterBearer("Bearer", "", tail);
    assert "Bearer" + " " + "" + tail == "Bearer " + " " + rest;
  }

  /**
   * `jwt.verify` rejects the empty token, so with such a verifier a double
   * space after "Bearer" is refused as an invalid token.
   */
  lemma DoubleSpaceRefused(rest: string, verify: string -> Option<Payload>)
    requires rest == [] || rest[0] == ' '
    requires verify("") == None
    ensures Decide(Some("Bearer " + " " + rest), verify) == Refuse(InvalidToken)
  {
    DoubleSpaceEmptyToken(rest);
    assert ("Bearer " + " " + rest)[..6] == "Bearer";
  }

  /** The prefix check needs no space: "Bearer" glued to more text still reaches the verifier. */
  lemma GluedPrefixAccepted(tail: string)
    ensures BearerHeader(Some("Bearer" + tail))
  {
    assert ("Bearer" + tail)[..6] == "Bearer";
  }
}
