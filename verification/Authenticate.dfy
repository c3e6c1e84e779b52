/** The webhook handler: from an HTTP request to the reply that carries the token review. */
module Authenticate {
  import opened Outcomes

  datatype UserInfo = UserInfo(
    username: string, uid: string, groups: seq<string>, extra: map<string, seq<string>>)

  const NOBODY := UserInfo("", "", [], map[])

  datatype TokenResponse = TokenResponse(user: Option<UserInfo>, audiences: seq<string>)

  /** What an authenticator returns: a response that may be nil, a verdict, and an error if any. */
  datatype Outcome = Outcome(response: Option<TokenResponse>, authenticated: bool, error: Option<string>)

  datatype Status = Status(
    authenticated: bool, user: UserInfo, audiences: seq<string>, error: string)

  datatype HttpRequest = HttpRequest(verb: string, body: Option<string>)

  datatype Reply = Reply(code: int, body: Option<string>)

  /** JSON: the token of a review request, if it is one, and the review that carries a status. */
  datatype Codec = Codec(token: string -> Option<string>, review: Status -> Option<string>)

  const OK := 200
  const METHOD_NOT_ALLOWED := 405
  const INTERNAL_SERVER_ERROR := 500

  /** A POST whose body is a review request for this token. */
  predicate Asks(codec: Codec, request: HttpRequest, token: string) {
    request.verb == "POST" && request.body.Some? && codec.token(request.body.value) == Some(token)
  }

  /** The token that a request asks about, or the code it is turned away with. */
  function TokenOf(codec: Codec, request: HttpRequest): (result: Result<string, int>)
    ensures result.Ok? ==> Asks(codec, request, result.value)
    ensures result.Err? ==> forall token :: !Asks(codec, request, token)
    ensures result.Err? ==> result.error == if request.verb != "POST" then 405 else 500
  {
    if request.verb != "POST" then Err(METHOD_NOT_ALLOWED)
    else if request.body.None? then Err(INTERNAL_SERVER_ERROR)
    else match codec.token(request.body.value)
      case None => Err(INTERNAL_SERVER_ERROR)
      case Some(token) => Ok(token)
  }

  /** The reply carries exactly this review, unless it cannot be written. */
  predicate Carries(codec: Codec, reply: Reply, status: Status) {
    && reply.body == codec.review(status)
    && reply.code == if codec.review(status).Some? then 200 else 500
  }

  function WriteReview(codec: Codec, status: Status): (reply: Reply)
    ensures Carries(codec, reply, status)
  {
    match codec.review(status)
    case None => Reply(INTERNAL_SERVER_ERROR, None)
    case Some(bytes) => Reply(OK, Some(bytes))
  }

  /** The outcome vouches for a user: no error, a positive verdict, and a response that has one. */
  predicate Vouches(outcome: Outcome, user: UserInfo) {
    && outcome.error == None && outcome.authenticated
    && outcome.response.Some? && outcome.response.value.user == Some(user)
  }

  /** A review says authenticated exactly if the outcome vouches for a user, and then names that user. */
  predicate Reviews(status: Status, outcome: Outcome) {
    && (status.authenticated ==>
          && Vouches(outcome, status.user) && status.audiences == outcome.response.value.audiences)
    && (!status.authenticated ==>
          && status.user == UserInfo("", "", [], map[]) && status.audiences == []
          && (outcome.error.Some? || !outcome.authenticated || outcome.response.None?
              || outcome.response.value.user.None?))
    && status.error == (if outcome.error.Some? then outcome.error.value else "")
  }

  /** The outcome determines the review. */
  lemma ReviewsOnce(status: Status, status': Status, outcome: Outcome)
    requires Reviews(status, outcome) && Reviews(status', outcome)
    ensures status == status'
  {
  }

  function ReviewOf(outcome: Outcome): (status: Status)
    ensures Reviews(status, outcome)
  {
    var error := if outcome.error.Some? then outcome.error.value else "";
    if outcome.error.Some? || !outcome.authenticated || outcome.response.None?
       || outcome.response.value.user.None?
    then Status(false, NOBODY, [], error)
    else Status(true, outcome.response.value.user.value, outcome.response.value.audiences, error)
  }

  /** The loop over the user's extra values, in whatever order the map is ranged over. */
  method CopyExtra(extra: map<string, seq<string>>) returns (extras: map<string, seq<string>>)
    ensures extras == extra
  {
    extras := map[];
    var left := extra.Keys;
    while left != {}
      invariant left <= extra.Keys
      invariant extras == map key | key in extra && key !in left :: extra[key]
      decreases |left|
    {
      var key :| key in left;
      extras := extras[key := extra[key]];
      left := left - {key};
    }
  }

  method Decide(outcome: Outcome) returns (status: Status)
    ensures status == ReviewOf(outcome)
  {
    if outcome.error.Some? {
      status := Status(false, NOBODY, [], outcome.error.value);
    } else if !outcome.authenticated || outcome.response.None? || outcome.response.value.user.None? {
      status := Status(false, NOBODY, [], "");
    } else {
      var user := outcome.response.value.user.value;
      var extras := CopyExtra(user.extra);
      status := Status(
        true, UserInfo(user.username, user.uid, user.groups, extras), outcome.response.value.audiences, "");
    }
    ReviewsOnce(status, ReviewOf(outcome), outcome);
  }

  /**
   The handler turns away what is no POST and what is no review request. For a token it asks the
   authenticator, and its reply carries the review of the outcome.
   */
  method ServeHTTP(codec: Codec, authenticate: string -> Outcome, request: HttpRequest)
    returns (reply: Reply)
    ensures request.verb != "POST" ==> reply == Reply(405, None)
    ensures request.verb == "POST" && (request.body.None? || codec.token(request.body.value).None?) ==>
              reply == Reply(500, None)
    ensures forall token | Asks(codec, request, token) ::
              exists status :: Reviews(status, authenticate(token)) && Carries(codec, reply, status)
  {
    if request.verb != "POST" {
      return Reply(METHOD_NOT_ALLOWED, None);
    }
    if request.body.None? {
      return Reply(INTERNAL_SERVER_ERROR, None);
    }
    var token := codec.token(request.body.value);
    if token.None? {
      return Reply(INTERNAL_SERVER_ERROR, None);
    }
    var status := Decide(authenticate(token.value));
    var bytes := codec.review(status);
    if bytes.None? {
      return Reply(INTERNAL_SERVER_ERROR, None);
    }
    return Reply(OK, bytes);
  }
}
