/**
 * Report 2 of the page loader: for each report tag, how many tag rows carry it, and that
 * count as a percentage of the leads of report 1.
 */
module TagReport {
  import opened Wrappers
  import opened Rounding
  import opened Records

  /** One line of `tagEffectiveness`. */
  datatype TagRow = TagRow(tag: string, leads: nat, percentage: nat)

  /** The line of report tag `name`: its row count and the rounded share of `totalLeads`. */
  function TagLine(name: string, rows: seq<ContactRecord>, totalLeads: nat): (line: TagRow)
    ensures line.tag == name
    ensures line.leads == |TaggedPositions(rows, name)| && line.leads <= |rows|
    ensures totalLeads == 0 ==> line.percentage == 0
    ensures totalLeads > 0 ==>
              2 * totalLeads * line.percentage <= 200 * line.leads + totalLeads < 2 * totalLeads * (line.percentage + 1)
    ensures line.leads <= totalLeads ==> line.percentage <= 100
  {
    CountTaggedCountsPositions(rows, name);
    var count := CountTagged(rows, name);
    TagRow(name, count, Percent(count, totalLeads))
  }

  /** `reportTagNames.map(...)`: one line per report tag name, in the same order. */
  function TagEffectiveness(names: seq<string>, rows: seq<ContactRecord>, totalLeads: nat): (r: seq<TagRow>)
    ensures |r| == |names|
    ensures forall i :: 0 <= i < |names| ==> r[i] == TagLine(names[i], rows, totalLeads)
  {
    seq(|names|, i requires 0 <= i < |names| => TagLine(names[i], rows, totalLeads))
  }

  /**
   * Every line lies within [0, 100] when no tag is carried by more rows than there are
   * leads, in particular when the tag rows are the leads themselves.
   */
  lemma TagSharesBounded(names: seq<string>, rows: seq<ContactRecord>, totalLeads: nat)
    requires |rows| <= totalLeads
    ensures forall i :: 0 <= i < |names| ==> TagEffectiveness(names, rows, totalLeads)[i].percentage <= 100
  {
  }

  /**
   * The denominator is report 1's `totalLeads`, which counts only rows with an assignee, so
   * a tag on more rows than that exceeds 100%: two tagged rows against one lead give 200%.
   */
  lemma TagShareCanExceedHundred()
    ensures var rows := [ContactRecord(None, Some(["Digital"])), ContactRecord(Some("a@x.com"), Some(["Digital"]))];
            TagEffectiveness(["Digital"], rows, 1) == [TagRow("Digital", 2, 200)]
  {
    var rows := [ContactRecord(None, Some(["Digital"])), ContactRecord(Some("a@x.com"), Some(["Digital"]))];
    assert rows[..1] == [rows[0]] && rows[..1][..0] == [];
    assert CountTagged(rows, "Digital") == 2;
  }

  /** With no report tags there are no lines; with no leads every percentage is 0. */
  lemma TagEffectivenessEdges(names: seq<string>, rows: seq<ContactRecord>)
    ensures TagEffectiveness([], rows, |rows|) == []
    ensures forall i :: 0 <= i < |names| ==> TagEffectiveness(names, rows, 0)[i].percentage == 0
  {
  }
}
