/** The interactive filters: district, school and metric multiselects and a date range. */
module Filters {
  import opened Entries
  import opened Seqs

  /** The user's choices. Each set starts empty, and an empty set selects nothing. */
  datatype Selection = Selection(
    districts: set<string>,
    schools: set<string>,
    metrics: set<string>,
    start: Day,
    end: Day)

  /** A row passes when all three memberships hold and its date lies in the closed range. */
  predicate Matches(sel: Selection, r: Record) {
    r.district in sel.districts && r.school in sel.schools && r.metric in sel.metrics &&
    sel.start <= r.timestamp && r.timestamp <= sel.end
  }

  /** The filtered view of the store. */
  function FilterRows(rows: seq<Record>, sel: Selection): (out: seq<Record>)
    ensures IsSubsequence(out, rows)
    ensures forall r :: r in out ==> r in rows && Matches(sel, r)
    ensures forall r :: multiset(out)[r] == if Matches(sel, r) then multiset(rows)[r] else 0
  {
    SelectIsSubsequence(rows, r => Matches(sel, r));
    SelectMultiplicity(rows, r => Matches(sel, r));
    Select(rows, r => Matches(sel, r))
  }

  /** Filters are opt-in: an empty choice for any criterion, or an empty date range,
      leaves no rows. */
  lemma EmptySelectionSelectsNothing(rows: seq<Record>, sel: Selection)
    requires sel.districts == {} || sel.schools == {} || sel.metrics == {} || sel.end < sel.start
    ensures FilterRows(rows, sel) == []
  {
  }

  /** A row appended to the store shows up at the end of the filtered view exactly when it
      matches the selection; the rows already shown are unchanged. */
  lemma FilterAfterAppend(rows: seq<Record>, e: Record, sel: Selection)
    ensures FilterRows(rows + [e], sel) ==
            FilterRows(rows, sel) + (if Matches(sel, e) then [e] else [])
  {
    SelectAppend(rows, [e], r => Matches(sel, r));
    assert [e][1..] == [];
  }
}
