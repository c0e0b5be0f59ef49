/**
 * The rows the report page reads from the agent and tag fetches, and the two tests it
 * applies to them: "has an assignee" and "carries this tag".
 */
module Records {
  import opened Wrappers

  /**
   * One fetched contact row, reduced to the two columns the aggregation reads.
   * `tags` is a list of labels; `None` stands for a missing (null or undefined) value.
   */
  datatype ContactRecord = ContactRecord(assignedUser: Option<string>, tags: Option<seq<string>>)

  /** `convertEmailToName(·, emailMapping)`: the display name shown for an assignee value. */
  type NameLookup = Option<string> -> string

  /** `record.assigned_user` is truthy: present and not the empty string. */
  predicate HasAssignee(r: ContactRecord)
  {
    r.assignedUser.Some? && r.assignedUser.value != ""
  }

  /** `record.tags && record.tags.includes(tag)`. */
  predicate HasTag(r: ContactRecord, tag: string)
  {
    r.tags.Some? && tag in r.tags.value
  }

  /** The display name of each row, in row order. */
  function DisplayNames(rs: seq<ContactRecord>, nameOf: NameLookup): seq<string>
  {
    seq(|rs|, i requires 0 <= i < |rs| => nameOf(rs[i].assignedUser))
  }

  /** Dropping the last row drops the last display name. */
  lemma DisplayNamesPrefix(rs: seq<ContactRecord>, nameOf: NameLookup)
    requires |rs| > 0
    ensures DisplayNames(rs, nameOf) == DisplayNames(rs[..|rs| - 1], nameOf) + [nameOf(rs[|rs| - 1].assignedUser)]
  {
  }

  /** The number of rows carrying `tag`. */
  function CountTagged(rs: seq<ContactRecord>, tag: string): (n: nat)
    ensures n <= |rs|
  {
    if |rs| == 0 then 0
    else CountTagged(rs[..|rs| - 1], tag) + (if HasTag(rs[|rs| - 1], tag) then 1 else 0)
  }

  /** The positions of the rows carrying `tag`. */
  function TaggedPositions(rs: seq<ContactRecord>, tag: string): set<nat>
  {
    set i: nat | i < |rs| && HasTag(rs[i], tag)
  }

  /** `CountTagged` is `filter(record => record.tags && record.tags.includes(tag)).length`. */
  lemma {:induction false} CountTaggedCountsPositions(rs: seq<ContactRecord>, tag: string)
    ensures CountTagged(rs, tag) == |TaggedPositions(rs, tag)|
  {
    if |rs| > 0 {
      var init := rs[..|rs| - 1];
      CountTaggedCountsPositions(init, tag);
      var before := TaggedPositions(init, tag);
      var now := TaggedPositions(rs, tag);
      if HasTag(rs[|rs| - 1], tag) {
        assert now == before + {|rs| - 1};
      } else {
        assert now == before;
      }
    }
  }
}
