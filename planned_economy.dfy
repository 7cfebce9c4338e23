/**
 * The planned economy: three menus (species, services, goods) and the
 * needs report of the selected species. Its report lists every counted
 * need, opens a group for each count of at least 2, and colours nothing.
 *
 * The counter is an `i8` in the program; every count is at most the number
 * of selected species, itself at most five, so the counter never overflows.
 */
module PlannedEconomy {
  import Lists
  import Goods
  import Needs
  import SpeciesTable
  import Menus
  import Tally
  import Report

  /** The planned economy's own menu: a row of options with checkboxes, selected by display string. */
  class Menu<T(==)> {
    const display: T -> string
    const entries: array<Menus.Entry<T>>

    /** `new`: the options in the given order, none checked. */
    constructor (options: seq<T>, display: T -> string)
      ensures this.display == display
      ensures fresh(entries)
      ensures entries[..] == Menus.Unticked(options)
    {
      this.display := display;
      entries := new Menus.Entry<T>[|options|](i requires 0 <= i < |options| => Menus.Entry(options[i], Menus.Unchecked));
    }

    /** `select`: checks exactly the options whose display string is among `selected`; the options stay. */
    method Select(selected: seq<string>)
      modifies entries
      ensures entries[..] == Menus.StringlySelected(old(entries[..]), display, selected)
      ensures Menus.OptionsOf(entries[..]) == Menus.OptionsOf(old(entries[..]))
    {
      Menus.SelectStrings(entries, display, selected);
      Menus.StringlySelectedMeaning(old(entries[..]), display, selected, "");
    }

    method View() returns (r: Menus.MenuView)
      ensures r == Menus.ViewOf(entries[..], display)
    {
      r := Menus.ViewRow(entries, display);
    }

    /** `get_selections`: the checked options in row order. */
    function GetSelections(): (r: seq<T>)
      reads entries
      ensures |r| == |Menus.CheckedIndexes(entries[..])| <= entries.Length
      ensures forall k :: 0 <= k < |r| ==> r[k] == entries[Menus.CheckedIndexes(entries[..])[k]].option
    {
      Menus.CheckedBound(entries[..]);
      Menus.CheckedOptions(entries[..])
    }
  }

  /** The report of the selected species: the planned body over the ranked counts, then a divider. */
  function PlannedReport(selected: seq<SpeciesTable.Species>): seq<Report.Line> {
    Report.PlannedBody(Tally.Ranked(map[], selected), Lists.None, |selected|) + [Report.Divider]
  }

  /**
   * The report loop of `print_needs`: for each pair in turn, a group header
   * when its count differs from the open group's and is at least 2, then the
   * need and its recipe; a divider closes the report.
   */
  method PlannedLines(sorted: seq<Tally.Tally>, total: nat) returns (lines: seq<Report.Line>)
    ensures lines == Report.PlannedBody(sorted, Lists.None, total) + [Report.Divider]
  {
    var last: Lists.Option<nat> := Lists.None;
    lines := [];
    assert sorted[0..] == sorted;
    for i := 0 to |sorted|
      invariant lines + Report.PlannedBody(sorted[i..], last, total) == Report.PlannedBody(sorted, Lists.None, total)
    {
      var e := sorted[i];
      assert sorted[i..][0] == e && sorted[i..][1..] == sorted[i + 1..];
      var header := last != Lists.Some(e.count) && e.count >= 2;
      ghost var before := lines;
      ghost var rest := Report.PlannedBody(sorted[i + 1..], if header then Lists.Some(e.count) else last, total);
      ghost var opening := Report.Opening(header, e.count, total);
      assert Report.PlannedBody(sorted[i..], last, total) == opening + Report.NeedBlock(e.need) + rest;
      if header {
        lines := lines + Report.HeaderLines(e.count, total);
        last := Lists.Some(e.count);
      }
      assert lines == before + opening;
      lines := Report.AppendNeed(lines, e.need);
      Lists.Regroup(before, opening, Report.NeedBlock(e.need), rest);
    }
    lines := lines + [Report.Divider];
  }

  class PlannedEconomy {
    const species: Menu<SpeciesTable.Species>
    const services: Menu<Needs.Service>
    const goods: Menu<Goods.Good>

    /** Each menu's row holds its catalogue, in catalogue order. */
    predicate Valid()
      reads species.entries, services.entries, goods.entries
    {
      && Menus.OptionsOf(species.entries[..]) == SpeciesTable.AllSpecies()
      && Menus.OptionsOf(services.entries[..]) == Needs.AllServices()
      && Menus.OptionsOf(goods.entries[..]) == Goods.AllGoods()
    }

    /** `new`: every species, service and good, none selected. */
    constructor ()
      ensures fresh(species.entries) && fresh(services.entries) && fresh(goods.entries)
      ensures species.entries[..] == Menus.Unticked(SpeciesTable.AllSpecies())
      ensures services.entries[..] == Menus.Unticked(Needs.AllServices())
      ensures goods.entries[..] == Menus.Unticked(Goods.AllGoods())
      ensures species.display == SpeciesTable.Display && services.display == Needs.ServiceDisplay
      ensures goods.display == Goods.Display
      ensures Valid()
    {
      species := new Menu(SpeciesTable.AllSpecies(), SpeciesTable.Display);
      services := new Menu(Needs.AllServices(), Needs.ServiceDisplay);
      goods := new Menu(Goods.AllGoods(), Goods.Display);
      new;
      Menus.UntickedIsEmpty(SpeciesTable.AllSpecies(), SpeciesTable.Display);
      Menus.UntickedIsEmpty(Needs.AllServices(), Needs.ServiceDisplay);
      Menus.UntickedIsEmpty(Goods.AllGoods(), Goods.Display);
    }

    /**
     * `print_needs`: counts the needs of the selected species, sorts the
     * pairs by descending count, and emits the report lines.
     */
    method PrintNeeds() returns (lines: seq<Report.Line>)
      ensures lines == PlannedReport(species.GetSelections())
    {
      var selected := species.GetSelections();
      var counter := Tally.CountNeeds(selected, map[]);
      var sorted := Tally.SortByCount(Tally.Entries(counter));
      lines := PlannedLines(sorted, |selected|);
    }

    /** The `i8` counter is wide enough: at most five species are selected, so no count exceeds five. */
    lemma CountsFit()
      requires Valid()
      ensures |species.GetSelections()| <= 5
      ensures forall k :: 0 <= k < |Tally.Ranked(map[], species.GetSelections())| ==>
        Tally.Ranked(map[], species.GetSelections())[k].count <= 5 < 128
    {
      var selected := species.GetSelections();
      assert |species.entries[..]| == |SpeciesTable.AllSpecies()|;
      Tally.RankedMeaning(map[], selected);
      RankedBound(Tally.Ranked(map[], selected), selected);
    }
  }

  // ------------------------------------------------------------- the report

  /** No count exceeds the number of selected species. */
  lemma RankedBound(r: seq<Tally.Tally>, selected: seq<SpeciesTable.Species>)
    requires Tally.RankedBy(r, map[], selected)
    ensures forall k :: 0 <= k < |r| ==> r[k].count <= |selected|
  {
    forall k | 0 <= k < |r| ensures r[k].count <= |selected| {
      Tally.OccurrencesBound(selected, r[k].need);
    }
  }

  lemma DividerListsNothing(body: seq<Report.Line>)
    ensures Report.ListedNeeds(body + [Report.Divider]) == Report.ListedNeeds(body)
    ensures Report.HeaderCounts(body + [Report.Divider]) == Report.HeaderCounts(body)
  {
    var d: seq<Report.Line> := [Report.Divider];
    assert d[1..] == [];
    Report.ListedNeedsConcat(body, d);
    Report.HeaderCountsConcat(body, d);
  }

  /** The ranked needs are exactly the needs some selected species lists. */
  lemma RankedNeeds(r: seq<Tally.Tally>, selected: seq<SpeciesTable.Species>)
    requires Tally.RankedBy(r, map[], selected)
    ensures forall n :: n in Report.NeedsIn(r) <==> Tally.Listed(selected, n)
  {
    forall n ensures n in Report.NeedsIn(r) <==> Tally.Listed(selected, n) {
      if n in Report.NeedsIn(r) {
        var k :| 0 <= k < |r| && Report.NeedsIn(r)[k] == n;
      }
      if Tally.Listed(selected, n) {
        var k := Tally.RankedFind(r, map[], selected, n);
        assert Report.NeedsIn(r)[k] == n;
      }
    }
  }

  /**
   * The report lists the needs of the counter in report order, which are
   * exactly the needs some selected species lists, count-1 needs included.
   */
  lemma ReportNeeds(selected: seq<SpeciesTable.Species>)
    ensures Report.ListedNeeds(PlannedReport(selected)) == Report.NeedsIn(Tally.Ranked(map[], selected))
    ensures forall n :: n in Report.ListedNeeds(PlannedReport(selected)) <==> Tally.Listed(selected, n)
  {
    var r := Tally.Ranked(map[], selected);
    DividerListsNothing(Report.PlannedBody(r, Lists.None, |selected|));
    Report.PlannedNeeds(r, Lists.None, |selected|);
    Tally.RankedMeaning(map[], selected);
    RankedNeeds(r, selected);
  }

  /** The group headers of the planned body over ranked pairs. */
  lemma BodyHeaders(r: seq<Tally.Tally>, selected: seq<SpeciesTable.Species>)
    requires Tally.RankedBy(r, map[], selected)
    ensures Report.Descending(Report.HeaderCounts(Report.PlannedBody(r, Lists.None, |selected|)), Lists.None)
    ensures forall x :: x in Report.HeaderCounts(Report.PlannedBody(r, Lists.None, |selected|)) <==> x >= 2 && Report.SharedBy(selected, x)
  {
    Report.PlannedHeadersDecrease(r, Lists.None, |selected|);
    Report.PlannedHeaders(r, Lists.None, |selected|);
    forall x | x >= 2 ensures Report.HasCount(r, x) <==> Report.SharedBy(selected, x) {
      Report.RankedCounts(r, map[], selected, x);
    }
  }

  /**
   * The report opens one group per count of at least 2 that some need has,
   * and no other, in strictly decreasing order.
   */
  lemma ReportHeaders(selected: seq<SpeciesTable.Species>)
    ensures Report.Descending(Report.HeaderCounts(PlannedReport(selected)), Lists.None)
    ensures forall x :: x in Report.HeaderCounts(PlannedReport(selected)) <==> x >= 2 && Report.SharedBy(selected, x)
  {
    var r := Tally.Ranked(map[], selected);
    DividerListsNothing(Report.PlannedBody(r, Lists.None, |selected|));
    Tally.RankedMeaning(map[], selected);
    BodyHeaders(r, selected);
  }

  /** The groups of the planned body over ranked pairs, closed by the divider. */
  lemma BodyGroups(r: seq<Tally.Tally>, selected: seq<SpeciesTable.Species>)
    requires Tally.RankedBy(r, map[], selected)
    ensures Report.Grouped(Report.PlannedBody(r, Lists.None, |selected|) + [Report.Divider], map[], selected, |selected|)
    ensures Report.Trailing(Report.PlannedBody(r, Lists.None, |selected|) + [Report.Divider], map[], selected)
    ensures Report.HeadersLead(Report.PlannedBody(r, Lists.None, |selected|) + [Report.Divider], map[], selected, |selected|)
  {
    var body := Report.PlannedBody(r, Lists.None, |selected|);
    Report.PlannedGrouped(r, map[], selected, Lists.None, |selected|);
    Report.ClosedGroups(body, map[], selected, |selected|);
    Report.OwnHeader(body + [Report.Divider], map[], selected, |selected|);
  }

  /**
   * The report's groups: every need shared by at least two species sits
   * under the "Needed by count/total" header of its count, with no other
   * header between them; every need only one species lists comes after
   * every header; every header is followed by a divider and a need of its
   * count.
   */
  lemma ReportGroups(selected: seq<SpeciesTable.Species>)
    ensures Report.Grouped(PlannedReport(selected), map[], selected, |selected|)
    ensures Report.Trailing(PlannedReport(selected), map[], selected)
    ensures Report.HeadersLead(PlannedReport(selected), map[], selected, |selected|)
  {
    Tally.RankedMeaning(map[], selected);
    BodyGroups(Tally.Ranked(map[], selected), selected);
  }

  /**
   * Over ranked pairs, a need only one species lists gets no header of its
   * own: it sits under the header of the smallest count of at least 2 that
   * some need has, or under no header when no need is shared.
   */
  lemma BodyTrailing(r: seq<Tally.Tally>, selected: seq<SpeciesTable.Species>, p: nat)
    requires Tally.RankedBy(r, map[], selected)
    requires p < |Report.PlannedBody(r, Lists.None, |selected|) + [Report.Divider]|
    requires (Report.PlannedBody(r, Lists.None, |selected|) + [Report.Divider])[p].NeedLine?
    requires Report.NeedCount(map[], selected, (Report.PlannedBody(r, Lists.None, |selected|) + [Report.Divider])[p].need) < 2
    ensures (forall x :: x >= 2 ==> !Report.SharedBy(selected, x)) ==>
      Report.NoHeaderBetween(Report.PlannedBody(r, Lists.None, |selected|) + [Report.Divider], 0, p)
    ensures forall c :: Report.SmallestShared(selected, c) ==>
      Report.UnderHeader(Report.PlannedBody(r, Lists.None, |selected|) + [Report.Divider], p, c, |selected|)
  {
    var body := Report.PlannedBody(r, Lists.None, |selected|);
    var lines := body + [Report.Divider];
    BodyGroups(r, selected);
    BodyHeaders(r, selected);
    DividerListsNothing(body);
    Report.SmallestGroup(lines, map[], selected, |selected|, p);
  }

  /**
   * `print_needs` gives a need only one species lists no header of its own:
   * it sits under the header of the smallest count of at least 2 that some
   * need has, or under no header when no need is shared.
   */
  lemma TrailingGroups(selected: seq<SpeciesTable.Species>)
    ensures forall p ::
      (0 <= p < |PlannedReport(selected)| && PlannedReport(selected)[p].NeedLine?
       && Report.NeedCount(map[], selected, PlannedReport(selected)[p].need) < 2) ==>
      && (forall c :: Report.SmallestShared(selected, c) ==> Report.UnderHeader(PlannedReport(selected), p, c, |selected|))
      && ((forall x :: x >= 2 ==> !Report.SharedBy(selected, x)) ==> Report.NoHeaderBetween(PlannedReport(selected), 0, p))
  {
    var r := Tally.Ranked(map[], selected);
    Tally.RankedMeaning(map[], selected);
    forall p | 0 <= p < |PlannedReport(selected)| && PlannedReport(selected)[p].NeedLine?
        && Report.NeedCount(map[], selected, PlannedReport(selected)[p].need) < 2
      ensures forall c :: Report.SmallestShared(selected, c) ==> Report.UnderHeader(PlannedReport(selected), p, c, |selected|)
      ensures (forall x :: x >= 2 ==> !Report.SharedBy(selected, x)) ==> Report.NoHeaderBetween(PlannedReport(selected), 0, p)
    {
      BodyTrailing(r, selected, p);
    }
  }

  /** Nothing is seeded, so a pair in the ranking means some species was selected. */
  lemma RankedNeedsSpecies(r: seq<Tally.Tally>, selected: seq<SpeciesTable.Species>)
    requires Tally.RankedBy(r, map[], selected)
    ensures r != [] ==> |selected| > 0
  {
    if r != [] {
      assert Tally.Listed(selected, r[0].need);
    }
  }

  /** With no species selected the report is the closing divider alone. */
  lemma NoSpeciesReport(selected: seq<SpeciesTable.Species>)
    requires |selected| == 0
    ensures PlannedReport(selected) == [Report.Divider]
  {
    Tally.RankedMeaning(map[], selected);
    RankedNeedsSpecies(Tally.Ranked(map[], selected), selected);
  }
}
