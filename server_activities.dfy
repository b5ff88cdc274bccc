/**
 * The in-memory activity roster of the activities service (src/app.py):
 * the `activities` dict, GET /activities, and the two mutating endpoints
 * POST /activities/{name}/signup and DELETE /activities/{name}/unregister.
 *
 * The dict keeps insertion order, which the client relies on when it lists
 * the activities, so the store holds the key order beside the table.
 */
module ServerActivities {
  import opened Common
  import opened ServerAuth

  /** One value of the `activities` dict. */
  datatype Activity = Activity(description: string, schedule: string, maxParticipants: int, participants: seq<string>)

  /** One `[name, details]` pair of the roster GET /activities returns, in insertion order. */
  datatype Entry = Entry(name: string, details: Activity)

  const ActivityNotFound := HttpError(404, "Activity not found")
  const AlreadySignedUp := HttpError(400, "Student is already signed up")
  const NotSignedUp := HttpError(400, "Student is not signed up for this activity")

  /** The dict's shape: `order` lists each key once, and exactly the keys of `table`. */
  ghost predicate WellFormed(order: seq<string>, table: map<string, Activity>)
  {
    && (forall i, j :: 0 <= i < j < |order| ==> order[i] != order[j])
    && (forall name :: name in order <==> name in table)
  }

  /** The roster as GET /activities serialises it: one entry per key, in key order. */
  function Snapshot(order: seq<string>, table: map<string, Activity>): (s: seq<Entry>)
    requires forall name :: name in order ==> name in table
    ensures |s| == |order|
    ensures forall i :: 0 <= i < |s| ==> s[i].name == order[i] && s[i].details == table[order[i]]
  {
    seq(|order|, i requires 0 <= i < |order| => Entry(order[i], table[order[i]]))
  }

  /** The position `list.remove` deletes: the first occurrence of `x`. */
  function FirstIndex(s: seq<string>, x: string): (i: nat)
    requires x in s
    ensures i < |s| && s[i] == x && x !in s[..i]
  {
    if s[0] == x then 0
    else
      var k := FirstIndex(s[1..], x);
      assert s[..k + 1] == [s[0]] + s[1..][..k];
      k + 1
  }

  /**
   * `list.remove(x)` on a list that holds `x`: exactly one copy of `x` goes,
   * the first one, and the rest keep their order.
   */
  function RemoveFirst(s: seq<string>, x: string): (r: seq<string>)
    requires x in s
    ensures |r| == |s| - 1
    ensures multiset(r) == multiset(s) - multiset{x}
    ensures r[..FirstIndex(s, x)] == s[..FirstIndex(s, x)]
    ensures r[FirstIndex(s, x)..] == s[FirstIndex(s, x) + 1..]
  {
    var i := FirstIndex(s, x);
    assert s == s[..i] + [x] + s[i + 1..];
    s[..i] + s[i + 1..]
  }

  /** Removing an email that was appended to a list without it gives the list back. */
  lemma {:induction false} RemoveFirstOfAppended(s: seq<string>, x: string)
    requires x !in s
    ensures RemoveFirst(s + [x], x) == s
  {
    var i := FirstIndex(s + [x], x);
    assert i == |s|;
    assert (s + [x])[..|s|] == s;
  }

  /** The table after `activity["participants"].append(email)`: that activity gains `email` at the end, nothing else changes. */
  function Enrolled(table: map<string, Activity>, name: string, email: string): (t: map<string, Activity>)
    requires name in table
    ensures t.Keys == table.Keys
    ensures t[name] == table[name].(participants := table[name].participants + [email])
    ensures forall other :: other in table && other != name ==> t[other] == table[other]
  {
    table[name := table[name].(participants := table[name].participants + [email])]
  }

  /** The table after `activity["participants"].remove(email)`: that activity loses the first copy of `email`, nothing else changes. */
  function Withdrawn(table: map<string, Activity>, name: string, email: string): (t: map<string, Activity>)
    requires name in table && email in table[name].participants
    ensures t.Keys == table.Keys
    ensures |t[name].participants| == |table[name].participants| - 1
    ensures t[name] == table[name].(participants := RemoveFirst(table[name].participants, email))
    ensures forall other :: other in table && other != name ==> t[other] == table[other]
  {
    table[name := table[name].(participants := RemoveFirst(table[name].participants, email))]
  }

  /**
   * Why `signup_for_activity` refuses, if it does. The checks run in a fixed
   * order: the teacher token first, then the activity, then the duplicate
   * check. Capacity is never checked.
   */
  function SignupRefusal(table: map<string, Activity>, name: string, email: string,
                         authorization: Option<string>, decode: Decoder): (e: Option<HttpError>)
    ensures e.None? <==> Authorize(authorization, decode).Ok? && name in table && email !in table[name].participants
    ensures Authorize(authorization, decode).Err? ==> e == Some(Authorize(authorization, decode).error)
    ensures Authorize(authorization, decode).Ok? && name !in table ==> e == Some(ActivityNotFound)
    ensures Authorize(authorization, decode).Ok? && name in table && email in table[name].participants ==>
              e == Some(AlreadySignedUp)
  {
    match Authorize(authorization, decode)
    case Err(denied) => Some(denied)
    case Ok(_) =>
      if name !in table then Some(ActivityNotFound)
      else if email in table[name].participants then Some(AlreadySignedUp)
      else None
  }

  /**
   * Why `unregister_from_activity` refuses, if it does: the teacher token
   * first, then the activity, then the membership check.
   */
  function UnregisterRefusal(table: map<string, Activity>, name: string, email: string,
                             authorization: Option<string>, decode: Decoder): (e: Option<HttpError>)
    ensures e.None? <==> Authorize(authorization, decode).Ok? && name in table && email in table[name].participants
    ensures Authorize(authorization, decode).Err? ==> e == Some(Authorize(authorization, decode).error)
    ensures Authorize(authorization, decode).Ok? && name !in table ==> e == Some(ActivityNotFound)
    ensures Authorize(authorization, decode).Ok? && name in table && email !in table[name].participants ==>
              e == Some(NotSignedUp)
  {
    match Authorize(authorization, decode)
    case Err(denied) => Some(denied)
    case Ok(_) =>
      if name !in table then Some(ActivityNotFound)
      else if email !in table[name].participants then Some(NotSignedUp)
      else None
  }

  /** The success message of `signup_for_activity`. */
  function SignedUpMessage(email: string, name: string): string
  {
    "Signed up " + email + " for " + name
  }

  /** The success message of `unregister_from_activity`. */
  function UnregisteredMessage(email: string, name: string): string
  {
    "Unregistered " + email + " from " + name
  }

  /** A signup that passes the guards is accepted even when the activity is already at or over capacity. */
  lemma SignupIgnoresCapacity(table: map<string, Activity>, name: string, email: string,
                              authorization: Option<string>, decode: Decoder)
    requires Authorize(authorization, decode).Ok?
    requires name in table && email !in table[name].participants
    requires |table[name].participants| >= table[name].maxParticipants
    ensures SignupRefusal(table, name, email, authorization, decode).None?
    ensures |Enrolled(table, name, email)[name].participants| > Enrolled(table, name, email)[name].maxParticipants
  {
  }

  /** Signing up an email that was absent and then unregistering it restores the table exactly. */
  lemma {:induction false} SignupThenUnregisterRestores(table: map<string, Activity>, name: string, email: string)
    requires name in table && email !in table[name].participants
    ensures email in Enrolled(table, name, email)[name].participants
    ensures Withdrawn(Enrolled(table, name, email), name, email) == table
  {
    var ps := table[name].participants;
    assert (ps + [email])[|ps|] == email;
    RemoveFirstOfAppended(ps, email);
    var back := Withdrawn(Enrolled(table, name, email), name, email);
    assert back[name] == table[name];
    assert back.Keys == table.Keys;
  }

  /** Names of the activities the service starts with, in dict order. */
  const SeedOrder: seq<string> := [
    "Chess Club", "Programming Class", "Gym Class", "Soccer Team", "Basketball Team",
    "Art Club", "Drama Club", "Math Club", "Debate Team"
  ]

  /** The activities the service starts with. */
  const SeedTable: map<string, Activity> := map[
    "Chess Club" := Activity(
      "Learn strategies and compete in chess tournaments",
      "Fridays, 3:30 PM - 5:00 PM", 12,
      ["michael@mergington.edu", "daniel@mergington.edu"]),
    "Programming Class" := Activity(
      "Learn programming fundamentals and build software projects",
      "Tuesdays and Thursdays, 3:30 PM - 4:30 PM", 20,
      ["emma@mergington.edu", "sophia@mergington.edu"]),
    "Gym Class" := Activity(
      "Physical education and sports activities",
      "Mondays, Wednesdays, Fridays, 2:00 PM - 3:00 PM", 30,
      ["john@mergington.edu", "olivia@mergington.edu"]),
    "Soccer Team" := Activity(
      "Join the school soccer team and compete in matches",
      "Tuesdays and Thursdays, 4:00 PM - 5:30 PM", 22,
      ["liam@mergington.edu", "noah@mergington.edu"]),
    "Basketball Team" := Activity(
      "Practice and play basketball with the school team",
      "Wednesdays and Fridays, 3:30 PM - 5:00 PM", 15,
      ["ava@mergington.edu", "mia@mergington.edu"]),
    "Art Club" := Activity(
      "Explore your creativity through painting and drawing",
      "Thursdays, 3:30 PM - 5:00 PM", 15,
      ["amelia@mergington.edu", "harper@mergington.edu"]),
    "Drama Club" := Activity(
      "Act, direct, and produce plays and performances",
      "Mondays and Wednesdays, 4:00 PM - 5:30 PM", 20,
      ["ella@mergington.edu", "scarlett@mergington.edu"]),
    "Math Club" := Activity(
      "Solve challenging problems and participate in math competitions",
      "Tuesdays, 3:30 PM - 4:30 PM", 10,
      ["james@mergington.edu", "benjamin@mergington.edu"]),
    "Debate Team" := Activity(
      "Develop public speaking and argumentation skills",
      "Fridays, 4:00 PM - 5:30 PM", 12,
      ["charlotte@mergington.edu", "henry@mergington.edu"])
  ]

  /** The module-level `activities` dict, updated in place by the two mutating endpoints. */
  class ActivityStore {
    var order: seq<string>
    var activities: map<string, Activity>

    ghost predicate Valid()
      reads this
    {
      WellFormed(order, activities)
    }

    /** The service at start-up, holding the nine seeded activities. */
    constructor ()
      ensures Valid()
      ensures order == SeedOrder && activities == SeedTable
    {
      order := SeedOrder;
      activities := SeedTable;
    }

    /** GET /activities: the very table the mutating endpoints change, in key order. */
    function GetActivities(): (s: seq<Entry>)
      reads this
      requires Valid()
      ensures s == Snapshot(order, activities)
    {
      Snapshot(order, activities)
    }

    /**
     * POST /activities/{name}/signup?email=...: on a refusal nothing changes;
     * otherwise the email is appended to that activity's participants and
     * every other activity is left as it was.
     */
    method Signup(name: string, email: string, authorization: Option<string>, decode: Decoder)
      returns (r: Result<string>)
      requires Valid()
      modifies this
      ensures Valid() && order == old(order)
      ensures match SignupRefusal(old(activities), name, email, authorization, decode)
              case Some(e) => r == Err(e) && activities == old(activities)
              case None => r == Ok(SignedUpMessage(email, name)) && activities == Enrolled(old(activities), name, email)
    {
      var auth := Authorize(authorization, decode);
      if auth.Err? {
        return Err(auth.error);
      }
      if name !in activities {
        return Err(ActivityNotFound);
      }
      var activity := activities[name];
      if email in activity.participants {
        return Err(AlreadySignedUp);
      }
      activities := activities[name := activity.(participants := activity.participants + [email])];
      r := Ok(SignedUpMessage(email, name));
    }

    /**
     * DELETE /activities/{name}/unregister?email=...: on a refusal nothing
     * changes; otherwise the first copy of the email leaves that activity's
     * participants and every other activity is left as it was.
     */
    method Unregister(name: string, email: string, authorization: Option<string>, decode: Decoder)
      returns (r: Result<string>)
      requires Valid()
      modifies this
      ensures Valid() && order == old(order)
      ensures match UnregisterRefusal(old(activities), name, email, authorization, decode)
              case Some(e) => r == Err(e) && activities == old(activities)
              case None => r == Ok(UnregisteredMessage(email, name)) && activities == Withdrawn(old(activities), name, email)
    {
      var auth := Authorize(authorization, decode);
      if auth.Err? {
        return Err(auth.error);
      }
      if name !in activities {
        return Err(ActivityNotFound);
      }
      var activity := activities[name];
      if email !in activity.participants {
        return Err(NotSignedUp);
      }
      activities := activities[name := activity.(participants := RemoveFirst(activity.participants, email))];
      r := Ok(UnregisteredMessage(email, name));
    }
  }
}
