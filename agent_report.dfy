/**
 * Report 1 of the page loader: performance per agent and the public/private pie chart.
 *
 * Rows with an assignee are grouped by the assignee's display name; each group counts
 * its rows, the rows tagged "Gobierno" (public sector) and the rows tagged "Privado"
 * (private sector).
 */
module AgentReport {
  import opened Wrappers
  import opened Dedup
  import opened Rounding
  import opened Records
  import opened Filtering

  const Gobierno := "Gobierno"
  const Privado := "Privado"

  /** `agents.filter(record => record.assigned_user)`: every row with an assignee, in order. */
  function WithAssignee(agents: seq<ContactRecord>): (r: seq<ContactRecord>)
    ensures IsFilterOf(r, agents, HasAssignee)
    ensures forall x :: x in r <==> x in agents && HasAssignee(x)
    ensures |r| <= |agents|
  {
    if |agents| == 0 then []
    else
      var init := WithAssignee(agents[..|agents| - 1]);
      var a := agents[|agents| - 1];
      FilterStep(init, agents, HasAssignee);
      if HasAssignee(a) then init + [a] else init
  }

  /** The positions of the rows with an assignee. */
  function AssignedPositions(agents: seq<ContactRecord>): set<nat>
  {
    set i: nat | i < |agents| && HasAssignee(agents[i])
  }

  /** Adding a row adds its position exactly when it has an assignee. */
  lemma AssignedPositionsStep(agents: seq<ContactRecord>)
    requires |agents| > 0
    ensures |AssignedPositions(agents)| ==
              |AssignedPositions(agents[..|agents| - 1])| + if HasAssignee(agents[|agents| - 1]) then 1 else 0
  {
    var init := agents[..|agents| - 1];
    var before, now := AssignedPositions(init), AssignedPositions(agents);
    assert forall i :: 0 <= i < |init| ==> init[i] == agents[i];
    if HasAssignee(agents[|agents| - 1]) {
      assert now == before + {|agents| - 1};
    } else {
      assert now == before;
    }
  }

  /** `agentPerformance.length` is the number of rows with an assignee. */
  lemma {:induction false} WithAssigneeCount(agents: seq<ContactRecord>)
    ensures |WithAssignee(agents)| == |AssignedPositions(agents)|
  {
    if |agents| > 0 {
      WithAssigneeCount(agents[..|agents| - 1]);
      AssignedPositionsStep(agents);
    }
  }

  /** The display names of the rows with an assignee are display names of the rows. */
  lemma AssignedNamesAreNames(agents: seq<ContactRecord>, nameOf: NameLookup, x: string)
    requires x in DisplayNames(WithAssignee(agents), nameOf)
    ensures x in DisplayNames(agents, nameOf)
  {
    var r := WithAssignee(agents);
    var i :| 0 <= i < |r| && DisplayNames(r, nameOf)[i] == x;
    assert r[i] in agents;
    var j :| 0 <= j < |agents| && agents[j] == r[i];
    assert DisplayNames(agents, nameOf)[j] == x;
  }

  /** The counters kept per agent: `{ total, publico, privado }`. */
  datatype Stats = Stats(total: nat, publico: nat, privado: nat)

  function Zero(): Stats
  {
    Stats(0, 0, 0)
  }

  function Add(a: Stats, b: Stats): Stats
  {
    Stats(a.total + b.total, a.publico + b.publico, a.privado + b.privado)
  }

  /** What one row adds to its agent's counters; a row with both tags bumps both. */
  function Contribution(r: ContactRecord): Stats
  {
    Stats(1, if HasTag(r, Gobierno) then 1 else 0, if HasTag(r, Privado) then 1 else 0)
  }

  /** The counters of display name `name` over the rows `rs`. */
  function Tally(rs: seq<ContactRecord>, nameOf: NameLookup, name: string): Stats
  {
    if |rs| == 0 then Zero()
    else
      var before := Tally(rs[..|rs| - 1], nameOf, name);
      if nameOf(rs[|rs| - 1].assignedUser) == name then Add(before, Contribution(rs[|rs| - 1])) else before
  }

  /** The counters of all rows together. */
  function Overall(rs: seq<ContactRecord>): Stats
  {
    Stats(|rs|, CountTagged(rs, Gobierno), CountTagged(rs, Privado))
  }

  /** The order of the entries of the `agentStats` dictionary: display names by first occurrence. */
  function GroupOrder(rs: seq<ContactRecord>, nameOf: NameLookup): seq<string>
  {
    Distinct(DisplayNames(rs, nameOf))
  }

  /** The `agentStats` dictionary: one entry per display name, holding that name's counters. */
  function Groups(rs: seq<ContactRecord>, nameOf: NameLookup): map<string, Stats>
  {
    map k | k in DisplayNames(rs, nameOf) :: Tally(rs, nameOf, k)
  }

  /** Adding a row adds its display name at the end of the entry order, unless it is already there. */
  lemma GroupOrderStep(rs: seq<ContactRecord>, nameOf: NameLookup)
    requires |rs| > 0
    ensures var init, n := rs[..|rs| - 1], nameOf(rs[|rs| - 1].assignedUser);
            GroupOrder(rs, nameOf) == if n in GroupOrder(init, nameOf) then GroupOrder(init, nameOf)
                                        else GroupOrder(init, nameOf) + [n]
  {
    var names := DisplayNames(rs, nameOf);
    DisplayNamesPrefix(rs, nameOf);
    assert names[..|names| - 1] == DisplayNames(rs[..|rs| - 1], nameOf);
  }

  /** A name that no row maps to has all counters at zero; a name some row maps to has a positive total. */
  lemma {:induction false} TallyIsPositiveExactlyForNames(rs: seq<ContactRecord>, nameOf: NameLookup, name: string)
    ensures name !in DisplayNames(rs, nameOf) ==> Tally(rs, nameOf, name) == Zero()
    ensures name in DisplayNames(rs, nameOf) ==> Tally(rs, nameOf, name).total > 0
  {
    if |rs| > 0 {
      DisplayNamesPrefix(rs, nameOf);
      TallyIsPositiveExactlyForNames(rs[..|rs| - 1], nameOf, name);
    }
  }

  /** Within one agent, the public and the private counts never exceed the total. */
  lemma {:induction false} TallyBounded(rs: seq<ContactRecord>, nameOf: NameLookup, name: string)
    ensures Tally(rs, nameOf, name).publico <= Tally(rs, nameOf, name).total
    ensures Tally(rs, nameOf, name).privado <= Tally(rs, nameOf, name).total
  {
    if |rs| > 0 {
      TallyBounded(rs[..|rs| - 1], nameOf, name);
    }
  }

  /** The positions of the rows whose display name is `name`. */
  function NamedPositions(rs: seq<ContactRecord>, nameOf: NameLookup, name: string): set<nat>
  {
    set i: nat | i < |rs| && nameOf(rs[i].assignedUser) == name
  }

  /**
   * A group's total counts every row whose display name is `name`, whatever its email:
   * two emails that map to the same name land in the same entry.
   */
  lemma {:induction false} TallyCountsNamedRows(rs: seq<ContactRecord>, nameOf: NameLookup, name: string)
    ensures Tally(rs, nameOf, name).total == |NamedPositions(rs, nameOf, name)|
  {
    if |rs| > 0 {
      var init := rs[..|rs| - 1];
      TallyCountsNamedRows(init, nameOf, name);
      if nameOf(rs[|rs| - 1].assignedUser) == name {
        assert NamedPositions(rs, nameOf, name) == NamedPositions(init, nameOf, name) + {|rs| - 1};
      } else {
        assert NamedPositions(rs, nameOf, name) == NamedPositions(init, nameOf, name);
      }
    }
  }

  /** Adding a row creates its name's entry at zero if there is none, then adds the row's contribution to it. */
  lemma GroupsStep(rs: seq<ContactRecord>, nameOf: NameLookup)
    requires |rs| > 0
    ensures var init, r := rs[..|rs| - 1], rs[|rs| - 1]; var n := nameOf(r.assignedUser);
            var before := Groups(init, nameOf);
            Groups(rs, nameOf) == before[n := Add(if n in before then before[n] else Zero(), Contribution(r))]
  {
    var init, r := rs[..|rs| - 1], rs[|rs| - 1];
    var n := nameOf(r.assignedUser);
    var before := Groups(init, nameOf);
    DisplayNamesPrefix(rs, nameOf);
    TallyIsPositiveExactlyForNames(init, nameOf, n);
    var after := before[n := Add(if n in before then before[n] else Zero(), Contribution(r))];
    assert forall k :: k in Groups(rs, nameOf) <==> k in after by {
      assert DisplayNames(rs, nameOf) == DisplayNames(init, nameOf) + [n];
    }
  }

  /** One step of the reduce: how the entry order and the entries change when a row is added. */
  lemma ReduceStep(rs: seq<ContactRecord>, nameOf: NameLookup)
    requires |rs| > 0
    ensures var init, r := rs[..|rs| - 1], rs[|rs| - 1]; var n := nameOf(r.assignedUser);
            var before := Groups(init, nameOf);
            && GroupOrder(rs, nameOf) == (if n in before then GroupOrder(init, nameOf) else GroupOrder(init, nameOf) + [n])
            && Groups(rs, nameOf) == before[n := Add(if n in before then before[n] else Zero(), Contribution(r))]
  {
    GroupOrderStep(rs, nameOf);
    GroupsStep(rs, nameOf);
  }

  /** The counter bumps of the reduce callback: `total++`, and `publico++` / `privado++` per tag found. */
  method BumpCounters(counters: Stats, record: ContactRecord) returns (bumped: Stats)
    ensures bumped == Add(counters, Contribution(record))
    ensures bumped.total == counters.total + 1
  {
    bumped := counters;
    bumped := bumped.(total := bumped.total + 1);
    if HasTag(record, Gobierno) {
      bumped := bumped.(publico := bumped.publico + 1);
    }
    if HasTag(record, Privado) {
      bumped := bumped.(privado := bumped.privado + 1);
    }
  }

  /**
   * Writing a key twice keeps only the second value. Stated once for any map, it spares
   * the solver from reasoning about updates of the string-keyed `agentStats` map directly.
   */
  lemma OverwrittenEntry<K, V>(m: map<K, V>, k: K, first: V, second: V)
    ensures m[k := first][k := second] == m[k := second]
  {
  }

  /**
   * The reduce callback: create the entry of the row's display name at zero when there is
   * none (the new key goes last in the entry order), then bump its counters.
   */
  method AddRecord(order: seq<string>, stats: map<string, Stats>, record: ContactRecord, nameOf: NameLookup)
    returns (order': seq<string>, stats': map<string, Stats>)
    ensures var n := nameOf(record.assignedUser);
            && order' == (if n in stats then order else order + [n])
            && stats' == stats[n := Add(if n in stats then stats[n] else Zero(), Contribution(record))]
  {
    order', stats' := order, stats;
    var agentName := nameOf(record.assignedUser);
    ghost var start := if agentName in stats then stats[agentName] else Zero();
    if agentName !in stats' {
      stats' := stats'[agentName := Stats(0, 0, 0)];
      order' := order' + [agentName];
    }
    assert stats'[agentName] == start;
    var counters := BumpCounters(stats'[agentName], record);
    stats' := stats'[agentName := counters];
    OverwrittenEntry(stats, agentName, Stats(0, 0, 0), counters);
  }

  /**
   * The `agentStats` reduce: one pass over the rows, from an empty dictionary. The result
   * is the dictionary of per-name counters and the order of its entries.
   */
  method AgentStats(records: seq<ContactRecord>, nameOf: NameLookup)
    returns (order: seq<string>, stats: map<string, Stats>)
    ensures order == GroupOrder(records, nameOf)
    ensures stats == Groups(records, nameOf)
  {
    order, stats := [], map[];
    for i := 0 to |records|
      invariant order == GroupOrder(records[..i], nameOf)
      invariant stats == Groups(records[..i], nameOf)
    {
      assert records[..i + 1][..i] == records[..i];
      ReduceStep(records[..i + 1], nameOf);
      order, stats := AddRecord(order, stats, records[i], nameOf);
    }
    assert records[..|records|] == records;
  }

  // ----- The performance table and the pie chart ----------------------------------

  /** One line of the performance table. */
  datatype AgentRow = AgentRow(agent: string, leads: nat, publico: nat, privado: nat,
                               publicoPorcentaje: nat, privadoPorcentaje: nat)

  /** The table line of agent `agent` with counters `s`. */
  function ToRow(agent: string, s: Stats): (row: AgentRow)
    ensures row.agent == agent && row.leads == s.total && row.publico == s.publico && row.privado == s.privado
    ensures s.total == 0 ==> row.publicoPorcentaje == 0 && row.privadoPorcentaje == 0
    ensures s.publico <= s.total ==> row.publicoPorcentaje <= 100
    ensures s.privado <= s.total ==> row.privadoPorcentaje <= 100
  {
    AgentRow(agent, s.total, s.publico, s.privado, Percent(s.publico, s.total), Percent(s.privado, s.total))
  }

  /** `Object.entries(agentStats).map(...)`: one line per entry, in entry order. */
  function PerformanceTable(order: seq<string>, stats: map<string, Stats>): (table: seq<AgentRow>)
    requires forall i :: 0 <= i < |order| ==> order[i] in stats
    ensures |table| == |order|
    ensures forall i :: 0 <= i < |order| ==> table[i].agent == order[i] && table[i].leads == stats[order[i]].total
  {
    seq(|order|, i requires 0 <= i < |order| => ToRow(order[i], stats[order[i]]))
  }

  /** The performance table the loader shows for the rows `rs`. */
  function AgentTable(rs: seq<ContactRecord>, nameOf: NameLookup): (table: seq<AgentRow>)
    ensures |table| == |GroupOrder(rs, nameOf)| <= |rs|
  {
    PerformanceTable(GroupOrder(rs, nameOf), Groups(rs, nameOf))
  }

  /** The three column sums `totalLeads`, `totalPublico`, `totalPrivado`. */
  function ColumnTotals(rows: seq<AgentRow>): (totals: Stats)
    ensures (forall i :: 0 <= i < |rows| ==> rows[i].publico <= rows[i].leads) ==> totals.publico <= totals.total
    ensures (forall i :: 0 <= i < |rows| ==> rows[i].privado <= rows[i].leads) ==> totals.privado <= totals.total
  {
    if |rows| == 0 then Zero()
    else
      var r := rows[|rows| - 1];
      Add(ColumnTotals(rows[..|rows| - 1]), Stats(r.leads, r.publico, r.privado))
  }

  /** One slice of the pie chart (`label` in the source, a reserved word here). */
  datatype PieSlice = PieSlice(name: string, value: nat, percentage: nat)

  /** `pieChartData`: the public and the private slice, as shares of all leads. */
  function PieChart(rows: seq<AgentRow>): (slices: seq<PieSlice>)
    ensures |slices| == 2 && slices[0].name == "Público" && slices[1].name == "Privado"
    ensures slices[0].value == ColumnTotals(rows).publico && slices[1].value == ColumnTotals(rows).privado
    ensures ColumnTotals(rows).total == 0 ==> slices[0].percentage == 0 && slices[1].percentage == 0
  {
    var totals := ColumnTotals(rows);
    [ PieSlice("Público", totals.publico, Percent(totals.publico, totals.total)),
      PieSlice("Privado", totals.privado, Percent(totals.privado, totals.total)) ]
  }

  // ----- Counts add up -------------------------------------------------------------

  /** The sum of the counters of the names `names`. */
  function SumTallies(names: seq<string>, rs: seq<ContactRecord>, nameOf: NameLookup): Stats
  {
    if |names| == 0 then Zero()
    else Add(SumTallies(names[..|names| - 1], rs, nameOf), Tally(rs, nameOf, names[|names| - 1]))
  }

  /** Adding one row adds its contribution to the sum exactly when its name is among `names`. */
  lemma {:induction false} SumTalliesStep(names: seq<string>, rs: seq<ContactRecord>, nameOf: NameLookup)
    requires |rs| > 0 && NoDuplicates(names)
    ensures SumTallies(names, rs, nameOf) ==
              if nameOf(rs[|rs| - 1].assignedUser) in names
              then Add(SumTallies(names, rs[..|rs| - 1], nameOf), Contribution(rs[|rs| - 1]))
              else SumTallies(names, rs[..|rs| - 1], nameOf)
  {
    if |names| > 0 {
      var ns, k := names[..|names| - 1], names[|names| - 1];
      assert names == ns + [k];
      assert k !in ns;
      SumTalliesStep(ns, rs, nameOf);
    }
  }

  /** Summed over all groups, the counters are those of all rows taken together. */
  lemma {:induction false} TalliesAddUp(rs: seq<ContactRecord>, nameOf: NameLookup)
    ensures SumTallies(GroupOrder(rs, nameOf), rs, nameOf) == Overall(rs)
  {
    if |rs| > 0 {
      var init := rs[..|rs| - 1];
      TalliesAddUp(init, nameOf);
      if nameOf(rs[|rs| - 1].assignedUser) in GroupOrder(init, nameOf) {
        KnownNameAddsUp(rs, nameOf);
      } else {
        NewNameAddsUp(rs, nameOf);
      }
    }
  }

  /** The step of `TalliesAddUp` for a row whose name already has an entry: that entry absorbs the row. */
  lemma KnownNameAddsUp(rs: seq<ContactRecord>, nameOf: NameLookup)
    requires |rs| > 0
    requires nameOf(rs[|rs| - 1].assignedUser) in GroupOrder(rs[..|rs| - 1], nameOf)
    requires SumTallies(GroupOrder(rs[..|rs| - 1], nameOf), rs[..|rs| - 1], nameOf) == Overall(rs[..|rs| - 1])
    ensures SumTallies(GroupOrder(rs, nameOf), rs, nameOf) == Overall(rs)
  {
    var d := GroupOrder(rs[..|rs| - 1], nameOf);
    GroupOrderStep(rs, nameOf);
    SumTalliesStep(d, rs, nameOf);
    OverallStep(rs);
  }

  /** The step of `TalliesAddUp` for a row with a new name: a new entry holding just this row. */
  lemma NewNameAddsUp(rs: seq<ContactRecord>, nameOf: NameLookup)
    requires |rs| > 0
    requires nameOf(rs[|rs| - 1].assignedUser) !in GroupOrder(rs[..|rs| - 1], nameOf)
    requires SumTallies(GroupOrder(rs[..|rs| - 1], nameOf), rs[..|rs| - 1], nameOf) == Overall(rs[..|rs| - 1])
    ensures SumTallies(GroupOrder(rs, nameOf), rs, nameOf) == Overall(rs)
  {
    var init, r := rs[..|rs| - 1], rs[|rs| - 1];
    var n := nameOf(r.assignedUser);
    var d := GroupOrder(init, nameOf);
    assert GroupOrder(rs, nameOf) == d + [n] by {
      GroupOrderStep(rs, nameOf);
    }
    assert SumTallies(d, rs, nameOf) == Overall(init) by {
      SumTalliesStep(d, rs, nameOf);
    }
    assert Tally(rs, nameOf, n) == Contribution(r) by {
      TallyIsPositiveExactlyForNames(init, nameOf, n);
    }
    calc {
      SumTallies(d + [n], rs, nameOf);
      { SumTalliesSnoc(d, n, rs, nameOf); }
      Add(SumTallies(d, rs, nameOf), Tally(rs, nameOf, n));
      Add(Overall(init), Contribution(r));
      { OverallStep(rs); }
      Overall(rs);
    }
  }

  lemma OverallStep(rs: seq<ContactRecord>)
    requires |rs| > 0
    ensures Overall(rs) == Add(Overall(rs[..|rs| - 1]), Contribution(rs[|rs| - 1]))
  {
  }

  lemma SumTalliesSnoc(names: seq<string>, name: string, rs: seq<ContactRecord>, nameOf: NameLookup)
    ensures SumTallies(names + [name], rs, nameOf) == Add(SumTallies(names, rs, nameOf), Tally(rs, nameOf, name))
  {
    assert (names + [name])[..|names|] == names;
  }

  /** The column sums of a performance table built from `Groups(rs)` are sums of tallies. */
  lemma {:induction false} TableTotalsAreTallySums(order: seq<string>, rs: seq<ContactRecord>, nameOf: NameLookup)
    requires forall i :: 0 <= i < |order| ==> order[i] in DisplayNames(rs, nameOf)
    ensures ColumnTotals(PerformanceTable(order, Groups(rs, nameOf))) == SumTallies(order, rs, nameOf)
  {
    if |order| > 0 {
      var init := order[..|order| - 1];
      TableTotalsAreTallySums(init, rs, nameOf);
      assert PerformanceTable(order, Groups(rs, nameOf))[..|init|] == PerformanceTable(init, Groups(rs, nameOf));
    }
  }

  /**
   * The sum of `leads` over the table is the number of rows; the public and private
   * columns sum to the number of rows carrying each tag.
   */
  lemma AgentTableTotals(rs: seq<ContactRecord>, nameOf: NameLookup)
    ensures ColumnTotals(AgentTable(rs, nameOf)) == Overall(rs)
    ensures ColumnTotals(AgentTable(rs, nameOf)).total == |rs|
  {
    TableTotalsAreTallySums(GroupOrder(rs, nameOf), rs, nameOf);
    TalliesAddUp(rs, nameOf);
  }

  /**
   * Each line of the table: its agent is the entry's display name, every name appears
   * once, its leads are positive, its public and private counts lie within its leads
   * and its percentages within [0, 100].
   */
  lemma AgentTableLines(rs: seq<ContactRecord>, nameOf: NameLookup)
    ensures |AgentTable(rs, nameOf)| == |GroupOrder(rs, nameOf)|
    ensures forall i, j :: 0 <= i < j < |AgentTable(rs, nameOf)| ==>
              AgentTable(rs, nameOf)[i].agent != AgentTable(rs, nameOf)[j].agent
    ensures forall i :: 0 <= i < |AgentTable(rs, nameOf)| ==>
              var row := AgentTable(rs, nameOf)[i];
              && row.agent == GroupOrder(rs, nameOf)[i]
              && row == ToRow(row.agent, Tally(rs, nameOf, row.agent))
              && row.agent in DisplayNames(rs, nameOf)
              && 0 < row.leads
              && row.publico <= row.leads && row.privado <= row.leads
              && row.publicoPorcentaje <= 100 && row.privadoPorcentaje <= 100
  {
    var order := GroupOrder(rs, nameOf);
    forall i | 0 <= i < |order|
      ensures Tally(rs, nameOf, order[i]).total > 0
      ensures Tally(rs, nameOf, order[i]).publico <= Tally(rs, nameOf, order[i]).total
      ensures Tally(rs, nameOf, order[i]).privado <= Tally(rs, nameOf, order[i]).total
    {
      TallyIsPositiveExactlyForNames(rs, nameOf, order[i]);
      TallyBounded(rs, nameOf, order[i]);
    }
  }

  /**
   * The pie chart: one public and one private slice whose values count the tagged rows,
   * with percentages in [0, 100] that are 0 when there are no leads.
   */
  lemma PieChartShares(rs: seq<ContactRecord>, nameOf: NameLookup)
    ensures var pie := PieChart(AgentTable(rs, nameOf));
      && |pie| == 2
      && pie[0].name == "Público" && pie[0].value == CountTagged(rs, Gobierno)
      && pie[1].name == "Privado" && pie[1].value == CountTagged(rs, Privado)
      && pie[0].percentage <= 100 && pie[1].percentage <= 100
      && (|rs| == 0 ==> pie[0].percentage == 0 && pie[1].percentage == 0)
  {
    AgentTableTotals(rs, nameOf);
  }

  /** When all rows share one display name, the table is that name's single line. */
  lemma SingleAgentTable(rs: seq<ContactRecord>, nameOf: NameLookup)
    requires |GroupOrder(rs, nameOf)| == 1
    ensures AgentTable(rs, nameOf) == [ToRow(GroupOrder(rs, nameOf)[0], Tally(rs, nameOf, GroupOrder(rs, nameOf)[0]))]
  {
    AgentTableLines(rs, nameOf);
  }

  /** Two rows of one agent, one public and one private, give one line at 50% and 50%. */
  lemma OneAgentTwoSectors(r1: ContactRecord, r2: ContactRecord, nameOf: NameLookup)
    requires r1.assignedUser == r2.assignedUser
    requires HasTag(r1, Gobierno) && !HasTag(r1, Privado)
    requires HasTag(r2, Privado) && !HasTag(r2, Gobierno)
    ensures AgentTable([r1, r2], nameOf) == [AgentRow(nameOf(r1.assignedUser), 2, 1, 1, 50, 50)]
  {
    var rs, name := [r1, r2], nameOf(r1.assignedUser);
    assert rs[..1] == [r1] && [r1][..0] == [];
    assert GroupOrder(rs, nameOf) == [name] by {
      GroupOrderStep([r1], nameOf);
      GroupOrderStep(rs, nameOf);
      assert GroupOrder([], nameOf) == [];
    }
    assert Tally(rs, nameOf, name) == Stats(2, 1, 1) by {
      assert Tally([r1], nameOf, name) == Stats(1, 1, 0);
    }
    SingleAgentTable(rs, nameOf);
    assert Percent(1, 2) == 50;
  }

  /** A row tagged both "Gobierno" and "Privado" counts in both columns. */
  lemma BothSectorsCountTwice(r: ContactRecord, nameOf: NameLookup)
    requires HasTag(r, Gobierno) && HasTag(r, Privado)
    ensures AgentTable([r], nameOf) == [AgentRow(nameOf(r.assignedUser), 1, 1, 1, 100, 100)]
  {
    var rs, name := [r], nameOf(r.assignedUser);
    assert rs[..0] == [];
    assert GroupOrder(rs, nameOf) == [name] by {
      GroupOrderStep(rs, nameOf);
      assert GroupOrder([], nameOf) == [];
    }
    assert Tally(rs, nameOf, name) == Stats(1, 1, 1);
    SingleAgentTable(rs, nameOf);
    assert Percent(1, 1) == 100;
  }
}
