/** The `Issue` record a create request builds before it is inserted. */
module Issues {
  import opened Json

  /** The eight fields a freshly built issue carries (its `_id` comes later,
      from the store). */
  const IssueFields: set<string> :=
    {"issue_title", "issue_text", "created_by", "assigned_to", "status_text",
     "created_on", "updated_on", "open"}

  /** The three fields a create request must supply with truthy values. */
  const RequiredFields: set<string> := {"issue_title", "issue_text", "created_by"}

  /** The two optional text fields, which default to the empty string. */
  const OptionalFields: set<string> := {"assigned_to", "status_text"}

  /** What a document built from payload `data` at time `now` looks like:
      exactly the eight issue fields; the required ones copied as sent; the
      optional ones copied when truthy and `''` otherwise; open; created and
      last updated at `now`. No other payload key is copied. */
  ghost predicate IsNewIssue(r: Record, data: Payload, now: nat)
  {
    && r.Keys == IssueFields
    && (forall k :: k in RequiredFields ==> r[k] == Lookup(data, k))
    && (forall k :: k in OptionalFields ==>
          r[k] == if Truthy(Lookup(data, k)) then Lookup(data, k) else Str(""))
    && r["created_on"] == Date(now)
    && r["updated_on"] == r["created_on"]
    && r["open"] == Bool(true)
  }

  /** The object `new Issue(data)` creates; `id` stands for the `_id`
      property that is attached once the store has inserted it. */
  class Issue {
    var issueTitle: Value
    var issueText: Value
    var createdBy: Value
    var assignedTo: Value
    var statusText: Value
    var createdOn: nat
    var updatedOn: nat
    var open: bool
    var id: string

    /** The issue as the document that is stored and sent back. */
    function Fields(): Record
      reads this
    {
      map["issue_title" := issueTitle, "issue_text" := issueText,
          "created_by" := createdBy, "assigned_to" := assignedTo,
          "status_text" := statusText, "created_on" := Date(createdOn),
          "updated_on" := Date(updatedOn), "open" := Bool(open)]
    }

    /** Sets the fields one by one; `now` is the clock reading. */
    constructor (data: Payload, now: nat)
      ensures IsNewIssue(Fields(), data, now)
      ensures id == ""
    {
      issueTitle := Lookup(data, "issue_title");
      issueText := Lookup(data, "issue_text");
      createdBy := Lookup(data, "created_by");
      assignedTo := if Truthy(Lookup(data, "assigned_to")) then Lookup(data, "assigned_to") else Str("");
      statusText := if Truthy(Lookup(data, "status_text")) then Lookup(data, "status_text") else Str("");
      createdOn := now;
      updatedOn := createdOn;
      open := true;
      id := "";
    }

    /** `newIssue._id = result.insertedId`: only the id changes. */
    method AttachId(insertedId: string)
      modifies this
      ensures id == insertedId
      ensures Fields() == old(Fields())
    {
      id := insertedId;
    }
  }
}
