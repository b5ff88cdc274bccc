/**
 * The rendering half of `fetchActivities` in the browser client
 * (src/static/app.js), stripped of the DOM: the roster received from
 * GET /activities becomes one card per activity and one select option per
 * activity. Cards record what the page shows and which buttons it wires;
 * HTML text and escaping are not part of the model.
 */
module ClientView {
  import opened ServerActivities

  /** One participant line: the email, and whether it carries a delete button with the unregister listener. */
  datatype Row = Row(email: string, removable: bool)

  /** The participants area of a card: the "No participants yet" placeholder, or the list of rows. */
  datatype ParticipantsArea = NoParticipantsYet | ParticipantList(rows: seq<Row>)

  /** One activity card as rendered: heading, description, schedule, "N spots left" and participants. */
  datatype Card = Card(name: string, description: string, schedule: string, spotsLeft: int, area: ParticipantsArea)

  /** `participants.map(...)`: one row per participant, in the given order, each with a delete button iff `isTeacher`. */
  function Rows(emails: seq<string>, isTeacher: bool): (rows: seq<Row>)
    ensures |rows| == |emails|
    ensures forall i :: 0 <= i < |rows| ==> rows[i].email == emails[i] && rows[i].removable == isTeacher
  {
    if emails == [] then [] else [Row(emails[0], isTeacher)] + Rows(emails[1..], isTeacher)
  }

  /**
   * The card for one activity. Availability is capacity minus the number of
   * participants, not clamped at zero; an activity without participants
   * shows the placeholder instead of a list.
   */
  function ProjectCard(entry: Entry, isTeacher: bool): (c: Card)
    ensures c.name == entry.name && c.description == entry.details.description
    ensures c.schedule == entry.details.schedule
    ensures c.spotsLeft + |entry.details.participants| == entry.details.maxParticipants
    ensures c.area.NoParticipantsYet? <==> entry.details.participants == []
    ensures c.area.ParticipantList? ==>
              && |c.area.rows| == |entry.details.participants|
              && forall i :: 0 <= i < |c.area.rows| ==>
                   c.area.rows[i] == Row(entry.details.participants[i], isTeacher)
  {
    var a := entry.details;
    var spotsLeft := a.maxParticipants - |a.participants|;
    var area := if |a.participants| > 0 then ParticipantList(Rows(a.participants, isTeacher)) else NoParticipantsYet;
    Card(entry.name, a.description, a.schedule, spotsLeft, area)
  }

  /** The cards of a whole roster, one per entry and in the roster's order. */
  function Project(entries: seq<Entry>, isTeacher: bool): (cards: seq<Card>)
    ensures |cards| == |entries|
    ensures forall i :: 0 <= i < |cards| ==> cards[i] == ProjectCard(entries[i], isTeacher)
  {
    if entries == [] then []
    else Project(entries[..|entries| - 1], isTeacher) + [ProjectCard(entries[|entries| - 1], isTeacher)]
  }

  /** The activity names of a roster, in order: the options one fetch appends to the select. */
  function Names(entries: seq<Entry>): (names: seq<string>)
    ensures |names| == |entries|
    ensures forall i :: 0 <= i < |names| ==> names[i] == entries[i].name
  {
    if entries == [] then []
    else Names(entries[..|entries| - 1]) + [entries[|entries| - 1].name]
  }

  /** The same card with every delete button dropped. */
  function WithoutDeleteButtons(c: Card): Card
  {
    match c.area
    case NoParticipantsYet => c
    case ParticipantList(rows) =>
      c.(area := ParticipantList(seq(|rows|, i requires 0 <= i < |rows| => rows[i].(removable := false))))
  }

  /**
   * Projecting the same roster as a teacher and as a visitor gives the same
   * cards, except that the teacher's rows all carry delete buttons and the
   * visitor's none.
   */
  lemma {:induction false} TeacherViewDiffersOnlyInButtons(entries: seq<Entry>)
    ensures |Project(entries, true)| == |Project(entries, false)| == |entries|
    ensures forall i :: 0 <= i < |entries| ==>
              WithoutDeleteButtons(Project(entries, true)[i]) == Project(entries, false)[i]
    ensures forall i, k ::
              (0 <= i < |entries| && Project(entries, true)[i].area.ParticipantList? &&
               0 <= k < |Project(entries, true)[i].area.rows|) ==>
              Project(entries, true)[i].area.rows[k].removable && !Project(entries, false)[i].area.rows[k].removable
  {
    forall i | 0 <= i < |entries|
      ensures WithoutDeleteButtons(Project(entries, true)[i]) == Project(entries, false)[i]
    {
      var t, v := ProjectCard(entries[i], true), ProjectCard(entries[i], false);
      if t.area.ParticipantList? {
        var stripped := WithoutDeleteButtons(t);
        assert stripped.area.rows == v.area.rows;
      }
    }
  }

  /** The concatenation of the name lists of successive fetches. */
  function Flatten(loads: seq<seq<string>>): seq<string>
  {
    if loads == [] then [] else Flatten(loads[..|loads| - 1]) + loads[|loads| - 1]
  }

  /** `k` copies of `names`, one after the other. */
  function Repeat(names: seq<string>, k: nat): (r: seq<string>)
    ensures |r| == k * |names|
  {
    if k == 0 then [] else Repeat(names, k - 1) + names
  }

  /** When every fetch delivered the same names, the select holds that many copies of them. */
  lemma {:induction false} FlattenOfSameNames(loads: seq<seq<string>>, names: seq<string>)
    requires forall i :: 0 <= i < |loads| ==> loads[i] == names
    ensures Flatten(loads) == Repeat(names, |loads|)
  {
    if loads != [] {
      FlattenOfSameNames(loads[..|loads| - 1], names);
    }
  }
}
