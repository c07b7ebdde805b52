/** One metric observation and the data-entry form that produces it. */
module Entries {
  import opened Wrappers

  /** A calendar date as a day number; later dates are larger. */
  type Day = int

  /** One row of the monitoring store. `value` is free text that may or may not be a number. */
  datatype Record = Record(
    teamMember: string,
    district: string,
    school: string,
    metric: string,
    value: string,
    isAnomaly: bool,
    anomalyComment: string,
    timestamp: Day)

  /** What the sidebar form holds when "Add" is pressed. */
  datatype Form = Form(
    teamMember: string,
    district: string,
    school: string,
    metric: string,
    value: string,
    isAnomaly: bool,
    anomalyComment: string)

  /** A row the entry form can produce: a non-empty value, and no comment unless flagged. */
  predicate WellFormed(r: Record) {
    r.value != "" && (!r.isAnomaly ==> r.anomalyComment == "")
  }

  /** The entry built from the form on `today`, or None when the value field is empty.
      The value is kept as the entered text whether or not it reads as a number. */
  function BuildEntry(form: Form, today: Day): (r: Option<Record>)
    ensures r.None? <==> form.value == ""
    ensures r.Some? ==> WellFormed(r.value)
    ensures r.Some? ==>
      r.value.teamMember == form.teamMember && r.value.district == form.district &&
      r.value.school == form.school && r.value.metric == form.metric &&
      r.value.value == form.value && r.value.isAnomaly == form.isAnomaly &&
      r.value.timestamp == today
    ensures r.Some? && form.isAnomaly ==> r.value.anomalyComment == form.anomalyComment
  {
    if form.value == "" then None
    else Some(Record(form.teamMember, form.district, form.school, form.metric, form.value,
                     form.isAnomaly, if form.isAnomaly then form.anomalyComment else "", today))
  }

  /** The form that reproduces a record, comment included. */
  function FormOf(r: Record): Form {
    Form(r.teamMember, r.district, r.school, r.metric, r.value, r.isAnomaly, r.anomalyComment)
  }

  /** Every well-formed record dated `r.timestamp` is what the form builds from it:
      the entries the form can produce are exactly the well-formed records. */
  lemma BuildEntryComplete(r: Record)
    requires WellFormed(r)
    ensures BuildEntry(FormOf(r), r.timestamp) == Some(r)
  {
  }

  /** When the anomaly box is not ticked, whatever was typed as a comment is irrelevant. */
  lemma CommentIgnoredUnlessAnomaly(form: Form, today: Day, comment: string)
    requires !form.isAnomaly
    ensures BuildEntry(form, today) == BuildEntry(form.(anomalyComment := comment), today)
  {
  }
}
