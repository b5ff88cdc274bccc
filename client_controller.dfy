/**
 * The browser client's controller (src/static/app.js) without the DOM: the
 * closure variables `authToken` and `isTeacher`, the message slot, the hide
 * timers it schedules, the rendered activity list and the activity select.
 *
 * Network calls are not made here: each handler is split at its `await`,
 * and the method for the second half receives what the call produced as a
 * `Reply` (a 2xx body, a non-2xx detail, or a thrown fault). A roster fetch
 * is recorded as started by counting it; its result arrives through
 * `OnActivitiesResponse`. Time is a parameter: a hide timer is its deadline.
 */
module ClientController {
  import opened Common
  import opened ServerAuth
  import opened ServerActivities
  import opened ClientView

  /** What an awaited `fetch` + `response.json()` produced. */
  datatype Reply<T> =
    | Accepted(body: T)               // response.ok, with the parsed body
    | Rejected(detail: Option<string>) // a non-2xx response and its `detail`, if any
    | TransportFault                  // fetch or json() threw

  /** The body of a successful POST /login as the client reads it. */
  datatype LoginBody = LoginBody(token: string, username: string)

  /** What the GET /activities of `fetchActivities` produced. */
  datatype FetchOutcome = Loaded(entries: seq<Entry>) | FetchFailed

  /** The message div's class: as the page was loaded, "success" or "error". */
  datatype Kind = Plain | Success | Error

  /** The message slot: its text, its class, and whether it is hidden. */
  datatype Message = Message(text: string, kind: Kind, hidden: bool)

  /** The activities list: the page's loading text, the rendered cards, or the failure text. */
  datatype Listing = Loading | Cards(cards: seq<Card>) | LoadFailed

  datatype Verb = Post | Delete

  /** A mutating request: the method, the activity and email it names, and its Authorization header if any. */
  datatype Request = Request(verb: Verb, activity: string, email: string, authorization: Option<string>)

  /** The delay of every `setTimeout` that hides the message, in milliseconds. */
  const HideDelay := 5000

  const LoginFallback := "Login failed"
  const LoginFaultText := "Login error"
  const MutationFallback := "An error occurred"
  const SignupFaultText := "Failed to sign up. Please try again."
  const UnregisterFaultText := "Failed to unregister. Please try again."

  /** `result.detail || fallback`: the server's detail unless it is missing or empty. */
  function DetailOr(detail: Option<string>, fallback: string): (text: string)
    ensures detail.Some? && detail.value != "" ==> text == detail.value
    ensures detail.None? || detail.value == "" ==> text == fallback
    ensures fallback != "" ==> text != ""
  {
    if detail.Some? && detail.value != "" then detail.value else fallback
  }

  /** The hide deadlines still pending at time `now`; the others have fired. */
  function Pending(deadlines: seq<int>, now: int): (r: seq<int>)
    ensures forall d :: d in r <==> d in deadlines && d > now
    ensures |r| <= |deadlines|
    ensures (forall i :: 0 <= i < |deadlines| ==> deadlines[i] > now) ==> r == deadlines
  {
    if deadlines == [] then []
    else (if deadlines[0] > now then [deadlines[0]] else []) + Pending(deadlines[1..], now)
  }

  /** Some hide timer has reached its deadline by `now`. */
  predicate Due(deadlines: seq<int>, now: int)
  {
    exists i :: 0 <= i < |deadlines| && deadlines[i] <= now
  }

  class Controller {
    var authToken: Option<string>
    var isTeacher: bool
    var message: Message
    /** Deadlines of the hide timers scheduled and not yet fired; none is ever cancelled. */
    var hideDeadlines: seq<int>
    var listing: Listing
    /** The options appended to the activity select, oldest first. */
    var options: seq<string>
    /** How many calls of `fetchActivities` have been started. */
    var fetchesStarted: nat
    /** The names each successful fetch appended to the select. */
    ghost var loads: seq<seq<string>>

    ghost predicate Valid()
      reads this
    {
      options == Flatten(loads)
    }

    /** The page after DOMContentLoaded: anonymous, message hidden, and the first fetch started. */
    constructor ()
      ensures Valid()
      ensures authToken == None && !isTeacher
      ensures message == Message("", Plain, true) && hideDeadlines == []
      ensures listing == Loading && options == [] && loads == []
      ensures fetchesStarted == 1
    {
      authToken := None;
      isTeacher := false;
      message := Message("", Plain, true);
      hideDeadlines := [];
      listing := Loading;
      options := [];
      loads := [];
      fetchesStarted := 1;
    }

    /** `setAdminUI`: records the teacher flag. It re-renders nothing. */
    method SetAdminUI(state: bool)
      modifies this`isTeacher
      ensures isTeacher == state
    {
      isTeacher := state;
    }

    /**
     * The login submit handler after its `await`: a successful login stores
     * the token and turns on teacher mode without touching the message; a
     * refusal or a fault leaves the session as it was and shows an error,
     * which no timer hides. No path fetches the roster again.
     */
    method OnLoginResponse(reply: Reply<LoginBody>)
      modifies this`authToken, this`isTeacher, this`message
      ensures reply.Accepted? ==> authToken == Some(reply.body.token) && isTeacher && message == old(message)
      ensures !reply.Accepted? ==> authToken == old(authToken) && isTeacher == old(isTeacher)
      ensures reply.Rejected? ==> message == Message(DetailOr(reply.detail, LoginFallback), Error, false)
      ensures reply.TransportFault? ==> message == Message(LoginFaultText, Error, false)
    {
      match reply
      case Accepted(body) =>
        authToken := Some(body.token);
        SetAdminUI(true);
      case Rejected(detail) =>
        message := Message(DetailOr(detail, LoginFallback), Error, false);
      case TransportFault =>
        message := Message(LoginFaultText, Error, false);
    }

    /** The logout handler: forgets the token and leaves teacher mode; the message and the cards stay as they are. */
    method Logout()
      modifies this`authToken, this`isTeacher
      ensures authToken == None && !isTeacher
    {
      authToken := None;
      SetAdminUI(false);
    }

    /** The request a signup or unregister sends: a Bearer header iff `authToken` is truthy (set and non-empty). */
    function MutationRequest(verb: Verb, activity: string, email: string): (r: Request)
      reads this
      ensures r.verb == verb && r.activity == activity && r.email == email
      ensures r.authorization.Some? <==> authToken.Some? && authToken.value != ""
      ensures r.authorization.Some? ==> r.authorization.value == BearerHeader(authToken.value)
    {
      var header := if authToken.Some? && authToken.value != "" then Some(BearerHeader(authToken.value)) else None;
      Request(verb, activity, email, header)
    }

    /**
     * The common second half of the signup and unregister handlers. Success
     * shows the server's message and starts exactly one fetch; a refusal
     * shows its detail or "An error occurred" and fetches nothing; both
     * schedule a hide at `now + 5000` beside any earlier ones. A fault shows
     * `faultText` and schedules no hide.
     */
    method ShowMutationOutcome(reply: Reply<string>, now: int, faultText: string)
      modifies this`message, this`hideDeadlines, this`fetchesStarted
      ensures reply.Accepted? ==> message == Message(reply.body, Success, false) && fetchesStarted == old(fetchesStarted) + 1
      ensures !reply.Accepted? ==> fetchesStarted == old(fetchesStarted)
      ensures reply.Rejected? ==> message == Message(DetailOr(reply.detail, MutationFallback), Error, false)
      ensures reply.TransportFault? ==> message == Message(faultText, Error, false)
      ensures hideDeadlines == if reply.TransportFault? then old(hideDeadlines)
                               else old(hideDeadlines) + [now + HideDelay]
    {
      match reply
      case Accepted(text) =>
        message := Message(text, Success, false);
        fetchesStarted := fetchesStarted + 1;
        hideDeadlines := hideDeadlines + [now + HideDelay];
      case Rejected(detail) =>
        message := Message(DetailOr(detail, MutationFallback), Error, false);
        hideDeadlines := hideDeadlines + [now + HideDelay];
      case TransportFault =>
        message := Message(faultText, Error, false);
    }

    /** The signup submit handler after its `await`. */
    method OnSignupResponse(reply: Reply<string>, now: int)
      modifies this`message, this`hideDeadlines, this`fetchesStarted
      ensures reply.Accepted? ==> message == Message(reply.body, Success, false) && fetchesStarted == old(fetchesStarted) + 1
      ensures !reply.Accepted? ==> fetchesStarted == old(fetchesStarted)
      ensures reply.Rejected? ==> message == Message(DetailOr(reply.detail, MutationFallback), Error, false)
      ensures reply.TransportFault? ==> message == Message(SignupFaultText, Error, false)
      ensures hideDeadlines == if reply.TransportFault? then old(hideDeadlines)
                               else old(hideDeadlines) + [now + HideDelay]
    {
      ShowMutationOutcome(reply, now, SignupFaultText);
    }

    /** `handleUnregister` after its `await`. */
    method OnUnregisterResponse(reply: Reply<string>, now: int)
      modifies this`message, this`hideDeadlines, this`fetchesStarted
      ensures reply.Accepted? ==> message == Message(reply.body, Success, false) && fetchesStarted == old(fetchesStarted) + 1
      ensures !reply.Accepted? ==> fetchesStarted == old(fetchesStarted)
      ensures reply.Rejected? ==> message == Message(DetailOr(reply.detail, MutationFallback), Error, false)
      ensures reply.TransportFault? ==> message == Message(UnregisterFaultText, Error, false)
      ensures hideDeadlines == if reply.TransportFault? then old(hideDeadlines)
                               else old(hideDeadlines) + [now + HideDelay]
    {
      ShowMutationOutcome(reply, now, UnregisterFaultText);
    }

    /**
     * The hide timers due by `now` fire. Each one hides whatever message is
     * showing, whichever message scheduled it; text and class stay.
     */
    method FireDueHides(now: int)
      modifies this`message, this`hideDeadlines
      ensures hideDeadlines == Pending(old(hideDeadlines), now)
      ensures message == old(message).(hidden := old(message.hidden) || Due(old(hideDeadlines), now))
    {
      if Due(hideDeadlines, now) {
        message := message.(hidden := true);
      }
      hideDeadlines := Pending(hideDeadlines, now);
    }

    /**
     * `fetchActivities` after its `await`: on success the list is cleared and
     * refilled with one card per activity, in roster order, drawn with the
     * teacher flag of this moment, and one option per activity is appended to
     * the select, which is never cleared. On failure the list shows the
     * failure text.
     */
    method OnActivitiesResponse(outcome: FetchOutcome)
      requires Valid()
      modifies this`listing, this`options, this`loads
      ensures Valid()
      ensures outcome.Loaded? ==>
                && listing == Cards(Project(outcome.entries, isTeacher))
                && options == old(options) + Names(outcome.entries)
                && loads == old(loads) + [Names(outcome.entries)]
      ensures outcome.FetchFailed? ==> listing == LoadFailed && options == old(options) && loads == old(loads)
    {
      match outcome
      case FetchFailed =>
        listing := LoadFailed;
      case Loaded(entries) =>
        var cards: seq<Card> := [];
        var appended: seq<string> := [];
        var i := 0;
        while i < |entries|
          invariant 0 <= i <= |entries|
          invariant cards == Project(entries[..i], isTeacher)
          invariant appended == Names(entries[..i])
        {
          assert entries[..i + 1][..i] == entries[..i];
          cards := cards + [ProjectCard(entries[i], isTeacher)];
          appended := appended + [entries[i].name];
          i := i + 1;
        }
        assert entries[..i] == entries;
        listing := Cards(cards);
        options := options + appended;
        loads := loads + [Names(entries)];
    }
  }

  /** When every successful fetch delivered the same names, the select holds one copy of them per fetch. */
  lemma SelectAccumulates(page: Controller, names: seq<string>)
    requires page.Valid()
    requires forall i :: 0 <= i < |page.loads| ==> page.loads[i] == names
    ensures page.options == Repeat(names, |page.loads|)
  {
    FlattenOfSameNames(page.loads, names);
  }
}
