/**
 * The moderation status shared by blogs, comments and categories: the schema
 * enum ["pending", "approved", "rejected"] with default "pending". Because the
 * stored status is this datatype, no document can hold any other value.
 */
module Moderation {
  import opened Wrappers
  import opened ApiErrors

  datatype Status = Pending | Approved | Rejected

  const DefaultStatus: Status := Pending

  function StatusName(st: Status): string {
    match st
    case Pending => "pending"
    case Approved => "approved"
    case Rejected => "rejected"
  }

  /**
   * The handlers' guard `status !== "pending" && status !== "approved" &&
   * status !== "rejected"`: a request value is accepted exactly when it is one
   * of the three names, and is then read as that status.
   */
  function ParseStatus(v: Option<string>): (r: Option<Status>)
    ensures r.Some? <==> v in {Some("pending"), Some("approved"), Some("rejected")}
    ensures r.Some? ==> v == Some(StatusName(r.value))
  {
    if v == Some("pending") then Some(Pending)
    else if v == Some("approved") then Some(Approved)
    else if v == Some("rejected") then Some(Rejected)
    else None
  }

  /** Every status is accepted under its own name. */
  lemma ParseStatusName(st: Status)
    ensures ParseStatus(Some(StatusName(st))) == Some(st)
  {
  }

  /** The template literal `${status}`: an absent value prints as "undefined". */
  function ShownStatus(v: Option<string>): string {
    if v.Some? then v.value else "undefined"
  }

  /** The 400 every status-taking handler raises for a value outside the three names. */
  function InvalidStatus<T>(v: Option<string>): (o: Outcome<T>)
    ensures FailsWith(o, 400)
    ensures o.error.message == Text("Invalid status provided " + ShownStatus(v) + ". Only pending, approved, or rejected values are allowed")
  {
    Reject(400, "Invalid status provided " + ShownStatus(v) + ". Only pending, approved, or rejected values are allowed")
  }
}
