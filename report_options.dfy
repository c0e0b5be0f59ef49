/**
 * The parts of the report loader that pick the data table and build the filter options:
 * the channel parameter, the agent names and the tag lists offered in the page's filters.
 */
module ReportOptions {
  import opened Wrappers
  import opened Dedup
  import opened Records
  import opened Filtering

  const DefaultCanal := "pymes"
  const DigitalCanal := "digitales"
  const DigitalTable := "canales_digitales_data"
  const PymesTable := "pymes_data"

  /** `url.searchParams.get('canal') || 'pymes'`: an absent or empty parameter means "pymes". */
  function Canal(param: Option<string>): (canal: string)
    ensures param.Some? && param.value != "" ==> canal == param.value
    ensures param.None? || param.value == "" ==> canal == DefaultCanal
  {
    match param
    case Some(v) => if v != "" then v else DefaultCanal
    case None => DefaultCanal
  }

  /** `canal === 'digitales' ? 'canales_digitales_data' : 'pymes_data'`. */
  function DataTable(canal: string): (table: string)
    ensures table == DigitalTable <==> canal == DigitalCanal
    ensures table == PymesTable <==> canal != DigitalCanal
  {
    if canal == DigitalCanal then DigitalTable else PymesTable
  }

  /**
   * The digital-channels table is read exactly when the parameter is "digitales"; any
   * other parameter, an empty one or none at all reads the pymes table.
   */
  lemma ChannelSelectsTable(param: Option<string>)
    ensures DataTable(Canal(param)) == DigitalTable <==> param == Some(DigitalCanal)
    ensures DataTable(Canal(param)) == PymesTable <==> param != Some(DigitalCanal)
  {
  }

  // ----- Agent options --------------------------------------------------------------

  /** `Boolean(name)` for a string: it is not empty. */
  predicate IsName(name: string)
  {
    name != ""
  }

  /** `.filter(Boolean)` on strings: every non-empty one, as often as it occurs, in order. */
  function NonEmpty(names: seq<string>): (r: seq<string>)
    ensures IsFilterOf(r, names, IsName)
    ensures forall x :: x in r <==> x in names && x != ""
    ensures |r| <= |names|
  {
    if |names| == 0 then []
    else
      var init := NonEmpty(names[..|names| - 1]);
      var x := names[|names| - 1];
      FilterStep(init, names, IsName);
      if x != "" then init + [x] else init
  }

  /**
   * Dropping the empty names and then the repetitions lists the names in the order of
   * their first occurrences in `names`.
   */
  lemma NamesInFirstOccurrenceOrder(names: seq<string>)
    ensures forall i, j :: 0 <= i < j < |Distinct(NonEmpty(names))| ==>
              FirstIndex(names, Distinct(NonEmpty(names))[i]) < FirstIndex(names, Distinct(NonEmpty(names))[j])
  {
    var kept := NonEmpty(names);
    var d := Distinct(kept);
    forall i, j | 0 <= i < j < |d|
      ensures FirstIndex(names, d[i]) < FirstIndex(names, d[j])
    {
      DistinctKeepsFirstOccurrenceOrder(kept, i, j);
      FilterKeepsFirstOccurrenceOrder(kept, names, IsName, d[i], d[j]);
    }
  }

  /**
   * `uniqueAgents`: the display names of all agent rows (with or without an assignee),
   * empty names dropped, each name kept once where it first occurs.
   */
  function UniqueAgents(agents: seq<ContactRecord>, nameOf: NameLookup): (r: seq<string>)
    ensures NoDuplicates(r)
    ensures forall x :: x in r <==> x != "" && x in DisplayNames(agents, nameOf)
    ensures forall i, j :: 0 <= i < j < |r| ==>
              FirstIndex(DisplayNames(agents, nameOf), r[i]) < FirstIndex(DisplayNames(agents, nameOf), r[j])
  {
    NamesInFirstOccurrenceOrder(DisplayNames(agents, nameOf));
    Distinct(NonEmpty(DisplayNames(agents, nameOf)))
  }

  /** Every non-empty display name of a row ends up in `uniqueAgents`. */
  lemma RowNameIsOffered(agents: seq<ContactRecord>, nameOf: NameLookup, i: nat)
    requires i < |agents| && nameOf(agents[i].assignedUser) != ""
    ensures nameOf(agents[i].assignedUser) in UniqueAgents(agents, nameOf)
  {
    assert DisplayNames(agents, nameOf)[i] == nameOf(agents[i].assignedUser);
  }

  // ----- Tag options ----------------------------------------------------------------

  /** `tags.map(t => t.tags)`: the tag column of every row, `None` where it is missing. */
  function TagColumn(rows: seq<ContactRecord>): (column: seq<Option<seq<string>>>)
    ensures |column| == |rows| && forall i :: 0 <= i < |rows| ==> column[i] == rows[i].tags
  {
    if |rows| == 0 then [] else TagColumn(rows[..|rows| - 1]) + [rows[|rows| - 1].tags]
  }

  /** `Boolean(list)` for a tag column: present. An empty list is truthy in JavaScript. */
  predicate IsPresent(tags: Option<seq<string>>)
  {
    tags.Some?
  }

  /** Tag lists seen as present tag-column values. */
  function AsPresent(lists: seq<seq<string>>): seq<Option<seq<string>>>
  {
    seq(|lists|, i requires 0 <= i < |lists| => Some(lists[i]))
  }

  /** A list occurs as often among the lists as it does, present, among their column values. */
  lemma {:induction false} AsPresentCounts(lists: seq<seq<string>>, t: seq<string>)
    ensures multiset(AsPresent(lists))[Some(t)] == multiset(lists)[t]
  {
    if |lists| > 0 {
      var init := lists[..|lists| - 1];
      AsPresentCounts(init, t);
      assert lists == init + [lists[|lists| - 1]];
      assert AsPresent(lists) == AsPresent(init) + [Some(lists[|lists| - 1])];
    }
  }

  /**
   * `tags.map(t => t.tags).filter(Boolean)`: the tag list of every row that has one, as
   * often as it occurs and in row order; a missing one is dropped.
   */
  function PresentTagLists(rows: seq<ContactRecord>): (r: seq<seq<string>>)
    ensures IsFilterOf(AsPresent(r), TagColumn(rows), IsPresent)
    ensures forall t :: t in r <==> exists i :: 0 <= i < |rows| && rows[i].tags == Some(t)
    ensures |r| <= |rows|
  {
    if |rows| == 0 then []
    else
      var init := PresentTagLists(rows[..|rows| - 1]);
      var last := rows[|rows| - 1];
      assert forall i :: 0 <= i < |rows| - 1 ==> rows[..|rows| - 1][i] == rows[i];
      PresentTagListsStep(init, rows);
      if last.tags.Some? then init + [last.tags.value] else init
  }

  /** One more row appends its tag list to the filtered column exactly when it has one. */
  lemma PresentTagListsStep(init: seq<seq<string>>, rows: seq<ContactRecord>)
    requires |rows| > 0 && IsFilterOf(AsPresent(init), TagColumn(rows[..|rows| - 1]), IsPresent)
    ensures var last := rows[|rows| - 1];
            IsFilterOf(AsPresent(if last.tags.Some? then init + [last.tags.value] else init), TagColumn(rows), IsPresent)
  {
    var last := rows[|rows| - 1];
    assert TagColumn(rows)[..|rows| - 1] == TagColumn(rows[..|rows| - 1]);
    FilterStep(AsPresent(init), TagColumn(rows), IsPresent);
    if last.tags.Some? {
      assert AsPresent(init + [last.tags.value]) == AsPresent(init) + [last.tags];
    }
  }

  /**
   * `[...new Set(lists)]` as written: the lists are arrays, which a `Set` tells apart by
   * identity, and every row's array is a separate object, so the options are exactly
   * `PresentTagLists(rows)`. Two rows with the same tag list then offer that list twice.
   */
  lemma RepeatedTagListIsOfferedTwice()
    ensures var rows := [ContactRecord(None, Some(["Gobierno"])), ContactRecord(None, Some(["Gobierno"]))];
            PresentTagLists(rows) == [["Gobierno"], ["Gobierno"]]
            && !NoDuplicates(PresentTagLists(rows))
  {
    var rows := [ContactRecord(None, Some(["Gobierno"])), ContactRecord(None, Some(["Gobierno"]))];
    assert rows[..1] == [rows[0]] && rows[..1][..0] == [];
    assert PresentTagLists(rows[..1]) == [["Gobierno"]];
    assert PresentTagLists(rows)[0] == PresentTagLists(rows)[1];
  }

  /**
   * The general form: as written, two rows carrying equal tag lists make the options
   * hold that list at least twice, so they have duplicates.
   */
  lemma {:induction false} RepeatedTagListsRepeatOptions(rows: seq<ContactRecord>, i: nat, j: nat)
    requires i < j < |rows| && rows[i].tags.Some? && rows[i].tags == rows[j].tags
    ensures multiset(PresentTagLists(rows))[rows[i].tags.value] >= 2
    ensures !NoDuplicates(PresentTagLists(rows))
  {
    var r := PresentTagLists(rows);
    TwoOccurrences(TagColumn(rows), i, j);
    AsPresentCounts(r, rows[i].tags.value);
    RepeatedValueIsDuplicate(r, rows[i].tags.value);
  }

  /** A present list's first position among the column values is its first position among the lists. */
  lemma {:induction false} AsPresentFirstIndex(lists: seq<seq<string>>, t: seq<string>)
    requires t in lists
    ensures Some(t) in AsPresent(lists) && FirstIndex(AsPresent(lists), Some(t)) == FirstIndex(lists, t)
    decreases |lists|
  {
    var p := AsPresent(lists);
    assert p[0] == Some(lists[0]);
    if lists[0] != t {
      assert p[1..] == AsPresent(lists[1..]);
      AsPresentFirstIndex(lists[1..], t);
    }
  }

  /**
   * Dropping the missing tag lists and then the repeated ones lists the tag lists in the order
   * of their first occurrences, both among the filtered lists and in the rows' tag column.
   */
  /** The first-occurrence order of two distinct present lists, among the lists and in the column. */
  lemma {:induction false} ListPairOrder(lists: seq<seq<string>>, column: seq<Option<seq<string>>>, r: seq<seq<string>>, i: nat, j: nat)
    requires IsFilterOf(AsPresent(lists), column, IsPresent)
    requires r == Distinct(lists) && i < j < |r|
    ensures r[i] in lists && r[j] in lists && FirstIndex(lists, r[i]) < FirstIndex(lists, r[j])
    ensures Some(r[i]) in column && Some(r[j]) in column
    ensures FirstIndex(column, Some(r[i])) < FirstIndex(column, Some(r[j]))
  {
    DistinctKeepsFirstOccurrenceOrder(lists, i, j);
    AsPresentFirstIndex(lists, r[i]);
    AsPresentFirstIndex(lists, r[j]);
    FilterKeepsFirstOccurrenceOrder(AsPresent(lists), column, IsPresent, Some(r[i]), Some(r[j]));
  }

  /**
   * Dropping the missing tag lists and then the repeated ones lists the tag lists in the order
   * of their first occurrences, both among the filtered lists and in the rows' tag column.
   */
  lemma {:induction false} TagListsInFirstOccurrenceOrder(rows: seq<ContactRecord>, lists: seq<seq<string>>, r: seq<seq<string>>)
    requires lists == PresentTagLists(rows) && r == Distinct(lists)
    ensures forall i, j :: 0 <= i < j < |r| ==>
              r[i] in lists && r[j] in lists && FirstIndex(lists, r[i]) < FirstIndex(lists, r[j])
    ensures forall i, j :: 0 <= i < j < |r| ==>
              Some(r[i]) in TagColumn(rows) && Some(r[j]) in TagColumn(rows) &&
              FirstIndex(TagColumn(rows), Some(r[i])) < FirstIndex(TagColumn(rows), Some(r[j]))
  {
    forall i: nat, j: nat | i < j < |r| {
      ListPairOrder(lists, TagColumn(rows), r, i, j);
    }
  }

  /** `uniqueTags` as intended: every present tag list once, compared by contents, by first occurrence. */
  function UniqueTags(rows: seq<ContactRecord>): (r: seq<seq<string>>)
    ensures NoDuplicates(r)
    ensures forall t :: t in r <==> exists i :: 0 <= i < |rows| && rows[i].tags == Some(t)
    ensures forall i, j :: 0 <= i < j < |r| ==>
              r[i] in PresentTagLists(rows) && r[j] in PresentTagLists(rows) &&
              FirstIndex(PresentTagLists(rows), r[i]) < FirstIndex(PresentTagLists(rows), r[j])
    ensures forall i, j :: 0 <= i < j < |r| ==>
              Some(r[i]) in TagColumn(rows) && Some(r[j]) in TagColumn(rows) &&
              FirstIndex(TagColumn(rows), Some(r[i])) < FirstIndex(TagColumn(rows), Some(r[j]))
  {
    var lists := PresentTagLists(rows);
    var r := Distinct(lists);
    TagListsInFirstOccurrenceOrder(rows, lists, r);
    r
  }
}
