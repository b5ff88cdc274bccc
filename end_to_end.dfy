/**
 * The client and the service together. GET /activities returns the table
 * the mutating endpoints change, and the client's requests are checked by
 * the service's guards, so properties of one side carry over to the other.
 */
module EndToEnd {
  import opened Common
  import opened ServerAuth
  import opened ServerActivities
  import opened ClientView
  import opened ClientController

  /** How a handler's result reaches the client: a 2xx body, or the exception's detail on a non-2xx status. */
  function Deliver(response: Result<string>): (reply: Reply<string>)
    ensures response.Ok? <==> reply.Accepted?
    ensures response.Ok? ==> reply.body == response.value
    ensures response.Err? ==> reply == Rejected(Some(response.error.detail))
  {
    match response
    case Ok(text) => Accepted(text)
    case Err(e) => Rejected(Some(e.detail))
  }

  /**
   * After a successful signup the next projection of the roster shows one
   * spot fewer for that activity and the same availability for every other,
   * whatever the teacher flag of either render.
   */
  lemma {:induction false} SignupLowersSpotsLeft(order: seq<string>, table: map<string, Activity>, name: string,
                                               email: string, teacherBefore: bool, teacherAfter: bool)
    requires WellFormed(order, table) && name in table
    ensures var before := Project(Snapshot(order, table), teacherBefore);
            var after := Project(Snapshot(order, Enrolled(table, name, email)), teacherAfter);
            && |before| == |after| == |order|
            && forall i :: 0 <= i < |order| ==>
                 after[i].spotsLeft == before[i].spotsLeft - (if order[i] == name then 1 else 0)
  {
    var updated := Enrolled(table, name, email);
    assert WellFormed(order, updated);
    var before := Project(Snapshot(order, table), teacherBefore);
    var after := Project(Snapshot(order, updated), teacherAfter);
    forall i | 0 <= i < |order|
      ensures after[i].spotsLeft == before[i].spotsLeft - (if order[i] == name then 1 else 0)
    {
      assert before[i] == ProjectCard(Entry(order[i], table[order[i]]), teacherBefore);
      assert after[i] == ProjectCard(Entry(order[i], updated[order[i]]), teacherAfter);
    }
  }

  /** A request from a page with no token carries no header, so the service refuses it with 401 before looking at the activity. */
  lemma AnonymousRequestRefused(page: Controller, verb: Verb, table: map<string, Activity>, name: string,
                                email: string, decode: Decoder)
    requires page.authToken.None?
    ensures page.MutationRequest(verb, name, email).authorization.None?
    ensures SignupRefusal(table, name, email, page.MutationRequest(verb, name, email).authorization, decode)
            == Some(MissingAuthorization)
    ensures UnregisterRefusal(table, name, email, page.MutationRequest(verb, name, email).authorization, decode)
            == Some(MissingAuthorization)
  {
  }

  /** A page holding a token sends a header from which the service's guard recovers exactly that token. */
  lemma {:induction false} TokenReachesGuard(page: Controller, verb: Verb, name: string, email: string)
    requires page.authToken.Some? && page.authToken.value != ""
    ensures var h := page.MutationRequest(verb, name, email).authorization;
            h.Some? && HasBearerPrefix(h.value) && AfterFirstSpace(h.value) == Some(page.authToken.value)
  {
    var h := page.MutationRequest(verb, name, email).authorization.value;
    BearerHeaderYieldsToken(page.authToken.value);
    BearerTokenFollowsPrefix(h);
  }

  /**
   * A visitor who never logged in submits the signup form: the service
   * answers 401, the page shows that detail as an error, no fetch follows
   * the initial one, and the roster is unchanged.
   */
  method AnonymousSignupScenario(name: string, email: string, decode: Decoder, now: int)
    returns (shown: Message, fetches: nat, roster: map<string, Activity>)
    ensures shown == Message(MissingAuthorization.detail, Error, false)
    ensures fetches == 1
    ensures roster == SeedTable
  {
    var store := new ActivityStore();
    var page := new Controller();
    var request := page.MutationRequest(Post, name, email);
    var response := store.Signup(request.activity, request.email, request.authorization, decode);
    page.OnSignupResponse(Deliver(response), now);
    shown, fetches, roster := page.message, page.fetchesStarted, store.activities;
  }

  /**
   * Two refusals 2000 ms apart: when the first one's timer fires at 5000 ms
   * it hides the second message, which had been visible for 3000 ms; the
   * second timer is still pending.
   */
  method OlderTimerHidesNewerMessage() returns (shown: Message, pending: seq<int>)
    ensures shown == Message(NotSignedUp.detail, Error, true)
    ensures pending == [7000]
  {
    var page := new Controller();
    page.OnSignupResponse(Rejected(Some(AlreadySignedUp.detail)), 0);
    page.OnUnregisterResponse(Rejected(Some(NotSignedUp.detail)), 2000);
    page.FireDueHides(5000);
    shown, pending := page.message, page.hideDeadlines;
  }

  /**
   * A page that stored the token of a successful login is accepted by both
   * mutating endpoints' guards, provided the JWT library decodes what it
   * signed: a signup for an activity the student is not in goes through, and
   * so does an unregister of a student who is in it.
   */
  lemma {:induction false} LoggedInTeacherPassesGuards(page: Controller, teachers: map<string, string>,
                                                     username: string, password: string, encode: Encoder,
                                                     decode: Decoder, verb: Verb, table: map<string, Activity>,
                                                     name: string, email: string)
    requires Login(teachers, username, password, encode).Ok?
    requires page.authToken == Some(Login(teachers, username, password, encode).value.token)
    requires page.authToken.value != ""
    requires decode(encode(LoginClaims(username))) == Some(LoginClaims(username))
    requires name in table
    ensures email !in table[name].participants ==>
              SignupRefusal(table, name, email, page.MutationRequest(verb, name, email).authorization, decode).None?
    ensures email in table[name].participants ==>
              UnregisterRefusal(table, name, email, page.MutationRequest(verb, name, email).authorization, decode).None?
  {
    LoginGrantAuthorizes(teachers, username, password, encode, decode);
  }
}
