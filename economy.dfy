/**
 * The economy: nine multi-select menus (species, services and the seven
 * categories of goods) and a switcher that picks the menu to edit next.
 *
 * Its needs report seeds the counter with the three building materials at
 * the number of selected species, lists only needs that at least two
 * species share, and colours every name against the selected facets: the
 * display strings of everything checked in the menus other than species.
 *
 * `plan` loops forever: it prints the report, then lets the user edit the
 * species menu while no species is selected, or else the menu picked in the
 * switcher. One round of that loop is `PlanStep`, whose prompt answers are
 * its inputs.
 */
module Economy {
  import Lists
  import Text
  import Goods
  import Needs
  import SpeciesTable
  import Menus
  import Tally
  import Report

  // ------------------------------------------------------------ menu kinds

  datatype MenuKind =
    | EditSpecies
    | EditServices
    | EditFuel
    | EditCraftingResources
    | EditBuildingMaterials
    | EditConsumableItems
    | EditSimpleFood
    | EditComplexFood
    | EditClothing

  /** The words of each variant name. */
  function MenuWords(k: MenuKind): seq<string> {
    match k
    case EditSpecies => ["Edit", "Species"]
    case EditServices => ["Edit", "Services"]
    case EditFuel => ["Edit", "Fuel"]
    case EditCraftingResources => ["Edit", "Crafting", "Resources"]
    case EditBuildingMaterials => ["Edit", "Building", "Materials"]
    case EditConsumableItems => ["Edit", "Consumable", "Items"]
    case EditSimpleFood => ["Edit", "Simple", "Food"]
    case EditComplexFood => ["Edit", "Complex", "Food"]
    case EditClothing => ["Edit", "Clothing"]
  }

  lemma MenuWordsAreWords(k: MenuKind)
    ensures Text.AllWords(MenuWords(k))
  {
    match k
    case EditSpecies => {}
    case EditServices => {}
    case EditFuel => {}
    case EditCraftingResources => {}
    case EditBuildingMaterials => {}
    case EditConsumableItems => {}
    case EditSimpleFood => {}
    case EditComplexFood => {}
    case EditClothing => {}
  }

  /** `Display`: `titleize` of the variant name ("EditSimpleFood" shows as "Edit Simple Food"). */
  function MenuDisplay(k: MenuKind): (r: string)
    ensures r == Text.Title(MenuWords(k))
  {
    MenuWordsAreWords(k);
    Text.TitleizeIdentifier(MenuWords(k));
    Text.Titleize(Text.Identifier(MenuWords(k)))
  }

  /** No two menus show the same title in the switcher. */
  lemma MenuDisplayInjective(a: MenuKind, b: MenuKind)
    ensures MenuDisplay(a) == MenuDisplay(b) <==> a == b
  {
    MenuWordsAreWords(a);
    MenuWordsAreWords(b);
    Text.TitleizeIdentifier(MenuWords(a));
    Text.TitleizeIdentifier(MenuWords(b));
    Text.TitleInjective(MenuWords(a), MenuWords(b));
  }

  /** `all_menus`: the switcher's options, in the order it offers them. */
  function AllMenus(): seq<MenuKind> {
    [ EditSimpleFood, EditBuildingMaterials, EditFuel, EditCraftingResources, EditComplexFood,
      EditClothing, EditConsumableItems, EditServices, EditSpecies ]
  }

  /** The switcher offers every menu, each once. */
  lemma AllMenusComplete(k: MenuKind)
    ensures k in AllMenus()
    ensures forall i, j :: 0 <= i < j < |AllMenus()| ==> AllMenus()[i] != AllMenus()[j]
  {
  }

  /** The switcher as `new` builds it. */
  function Switcher(): Menus.SingleSelectMenu<MenuKind> {
    Menus.SingleSelectMenu("What would you like to do?\n", AllMenus(), MenuDisplay)
  }

  /** An answer the switcher's prompt can return: the title of one of its options. */
  predicate Offered(choice: string) {
    exists i :: 0 <= i < |AllMenus()| && MenuDisplay(AllMenus()[i]) == choice
  }

  /** Picking a menu's title in the switcher gives that menu. */
  lemma SwitcherPicks(k: MenuKind)
    ensures Offered(MenuDisplay(k))
    ensures Switcher().Choose(MenuDisplay(k)) == k
  {
    AllMenusComplete(k);
    var i :| 0 <= i < |AllMenus()| && AllMenus()[i] == k;
    assert MenuDisplay(AllMenus()[i]) == MenuDisplay(k);
    MenuDisplayInjective(Switcher().Choose(MenuDisplay(k)), k);
  }

  /**
   * The menu a round of `plan` edits: species while no species is selected,
   * otherwise the menu picked in the switcher.
   */
  function Edited(noSpecies: bool, choice: string): (r: MenuKind)
    requires noSpecies || Offered(choice)
    ensures noSpecies ==> r == EditSpecies
    ensures !noSpecies ==> MenuDisplay(r) == choice
  {
    if noSpecies then EditSpecies else Switcher().Choose(choice)
  }

  // ------------------------------------------------------------ the report

  /** The counter before counting: each building material at the number of selected species. */
  function Seed(numSpecies: nat): (r: map<Needs.Need, nat>)
    ensures forall m :: Needs.BuildingMaterial(m) in r
    ensures forall n :: n in r ==> n.BuildingMaterial? && r[n] == numSpecies
  {
    var r := map[ Needs.BuildingMaterial(Goods.Planks) := numSpecies,
                  Needs.BuildingMaterial(Goods.Fabric) := numSpecies,
                  Needs.BuildingMaterial(Goods.Bricks) := numSpecies ];
    assert forall m :: Needs.BuildingMaterial(m) in r by {
      forall m: Goods.BuildingMaterial ensures Needs.BuildingMaterial(m) in r {
        assert m.Planks? || m.Fabric? || m.Bricks?;
      }
    }
    r
  }

  /** The report of the selected species: the economy body over the seeded, ranked counts, then a divider. */
  function EconomyReport(selected: seq<SpeciesTable.Species>): seq<Report.Line> {
    Report.EconomyBody(Tally.Ranked(Seed(|selected|), selected), Lists.None, |selected|) + [Report.Divider]
  }

  /**
   * The report loop of `print_needs`: pairs of count below 2 are skipped;
   * any other pair opens a group when its count differs from the open
   * group's, then gives the need and its recipe. A divider closes the report.
   */
  method EconomyLines(sorted: seq<Tally.Tally>, total: nat) returns (lines: seq<Report.Line>)
    ensures lines == Report.EconomyBody(sorted, Lists.None, total) + [Report.Divider]
  {
    var last: Lists.Option<nat> := Lists.None;
    lines := [];
    assert sorted[0..] == sorted;
    for i := 0 to |sorted|
      invariant lines + Report.EconomyBody(sorted[i..], last, total) == Report.EconomyBody(sorted, Lists.None, total)
    {
      var e := sorted[i];
      assert sorted[i..][0] == e && sorted[i..][1..] == sorted[i + 1..];
      if e.count >= 2 {
        var header := last != Lists.Some(e.count);
        ghost var before := lines;
        ghost var rest := Report.EconomyBody(sorted[i + 1..], if header then Lists.Some(e.count) else last, total);
        ghost var opening := Report.Opening(header, e.count, total);
        assert Report.EconomyBody(sorted[i..], last, total) == opening + Report.NeedBlock(e.need) + rest;
        if header {
          lines := lines + Report.HeaderLines(e.count, total);
          last := Lists.Some(e.count);
        }
        assert lines == before + opening;
        lines := Report.AppendNeed(lines, e.need);
        Lists.Regroup(before, opening, Report.NeedBlock(e.need), rest);
      } else {
        assert Report.EconomyBody(sorted[i..], last, total) == Report.EconomyBody(sorted[i + 1..], last, total);
      }
    }
    lines := lines + [Report.Divider];
  }

  /** A need the economy report lists: a building material once two species are selected, or a need two of them share. */
  predicate Reported(selected: seq<SpeciesTable.Species>, n: Needs.Need) {
    (n.BuildingMaterial? && |selected| >= 2) || Tally.Occurrences(selected, n) >= 2
  }

  /** The seeded needs are seeded with the number of species and listed by no species. */
  lemma SeedFits(selected: seq<SpeciesTable.Species>)
    ensures forall n :: n in Seed(|selected|) ==> Seed(|selected|)[n] == |selected| && Tally.Occurrences(selected, n) == 0
  {
    forall n | n in Seed(|selected|) ensures Tally.Occurrences(selected, n) == 0 {
      Tally.BuildingMaterialsNeverOccur(selected, n.buildingMaterial);
    }
  }

  /** A ranked pair's count is at least 2 iff its need is one the report lists. */
  lemma PairShared(r: seq<Tally.Tally>, selected: seq<SpeciesTable.Species>, k: nat)
    requires Tally.RankedBy(r, Seed(|selected|), selected)
    requires k < |r|
    ensures r[k].count >= 2 <==> Reported(selected, r[k].need)
  {
    var n := r[k].need;
    if n.BuildingMaterial? {
      Tally.BuildingMaterialsNeverOccur(selected, n.buildingMaterial);
    }
  }

  /** A need among the ranked pairs of count at least 2 is one the report lists. */
  lemma SharedReported(r: seq<Tally.Tally>, selected: seq<SpeciesTable.Species>, n: Needs.Need)
    requires Tally.RankedBy(r, Seed(|selected|), selected)
    requires n in Report.NeedsIn(Report.Shared(r))
    ensures Reported(selected, n)
  {
    var shared := Report.Shared(r);
    Report.SharedMeaning(r);
    var j :| 0 <= j < |shared| && Report.NeedsIn(shared)[j] == n;
    assert shared[j] in r;
    var k :| 0 <= k < |r| && r[k] == shared[j];
    PairShared(r, selected, k);
  }

  /** A need the report lists is among the ranked pairs of count at least 2. */
  lemma ReportedShared(r: seq<Tally.Tally>, selected: seq<SpeciesTable.Species>, n: Needs.Need)
    requires Tally.RankedBy(r, Seed(|selected|), selected)
    requires Reported(selected, n)
    ensures n in Report.NeedsIn(Report.Shared(r))
  {
    var shared := Report.Shared(r);
    Report.SharedMeaning(r);
    if !n.BuildingMaterial? {
      Tally.OccursIff(selected, n);
    }
    var k := Tally.RankedFind(r, Seed(|selected|), selected, n);
    PairShared(r, selected, k);
    assert r[k] in shared;
    var j :| 0 <= j < |shared| && shared[j] == r[k];
    assert Report.NeedsIn(shared)[j] == n;
  }

  /** Among the ranked pairs, those of count at least 2 hold exactly the needs the report lists. */
  lemma RankedShared(r: seq<Tally.Tally>, selected: seq<SpeciesTable.Species>)
    requires Tally.RankedBy(r, Seed(|selected|), selected)
    ensures forall n :: n in Report.NeedsIn(Report.Shared(r)) <==> Reported(selected, n)
  {
    forall n ensures n in Report.NeedsIn(Report.Shared(r)) <==> Reported(selected, n) {
      if n in Report.NeedsIn(Report.Shared(r)) {
        SharedReported(r, selected, n);
      }
      if Reported(selected, n) {
        ReportedShared(r, selected, n);
      }
    }
  }

  /**
   * The report lists the shared pairs' needs in report order: every
   * building material once two species are selected, and every need two
   * selected species share, and nothing else.
   */
  lemma ReportNeeds(selected: seq<SpeciesTable.Species>)
    ensures Report.ListedNeeds(EconomyReport(selected)) == Report.NeedsIn(Report.Shared(Tally.Ranked(Seed(|selected|), selected)))
    ensures forall n :: n in Report.ListedNeeds(EconomyReport(selected)) <==> Reported(selected, n)
  {
    var r := Tally.Ranked(Seed(|selected|), selected);
    ListedInOrder(r, |selected|);
    Tally.RankedMeaning(Seed(|selected|), selected);
    RankedShared(r, selected);
  }

  /** The economy report over some pairs lists the needs of those of count at least 2, in order. */
  lemma ListedInOrder(r: seq<Tally.Tally>, total: nat)
    ensures Report.ListedNeeds(Report.EconomyBody(r, Lists.None, total) + [Report.Divider]) == Report.NeedsIn(Report.Shared(r))
  {
    var body := Report.EconomyBody(r, Lists.None, total);
    var d: seq<Report.Line> := [Report.Divider];
    assert d[1..] == [];
    Report.ListedNeedsConcat(body, d);
    Report.EconomyNeeds(r, Lists.None, total);
  }

  /** The group headers of the economy body over ranked pairs. */
  lemma BodyHeaders(r: seq<Tally.Tally>, selected: seq<SpeciesTable.Species>)
    requires Tally.RankedBy(r, Seed(|selected|), selected)
    ensures Report.Descending(Report.HeaderCounts(Report.EconomyBody(r, Lists.None, |selected|) + [Report.Divider]), Lists.None)
    ensures forall x :: x in Report.HeaderCounts(Report.EconomyBody(r, Lists.None, |selected|) + [Report.Divider]) <==>
      x >= 2 && (Report.SharedBy(selected, x) || x == |selected|)
  {
    var seed := Seed(|selected|);
    var d: seq<Report.Line> := [Report.Divider];
    assert d[1..] == [];
    Report.HeaderCountsConcat(Report.EconomyBody(r, Lists.None, |selected|), d);
    Report.EconomyHeadersDecrease(r, Lists.None, |selected|);
    Report.EconomyHeaders(r, Lists.None, |selected|);
    SeedFits(selected);
    forall x | x >= 2 ensures Report.HasCount(r, x) <==> Report.SharedBy(selected, x) || x == |selected| {
      Report.RankedCounts(r, seed, selected, x);
      assert Needs.BuildingMaterial(Goods.Planks) in seed;
    }
  }

  /**
   * The report opens, in strictly decreasing order, one group per count of
   * at least 2 that some need has: the shared needs' counts and, once two
   * species are selected, the building materials' count, which is the
   * number of species.
   */
  lemma ReportHeaders(selected: seq<SpeciesTable.Species>)
    ensures Report.Descending(Report.HeaderCounts(EconomyReport(selected)), Lists.None)
    ensures forall x :: x in Report.HeaderCounts(EconomyReport(selected)) <==>
      x >= 2 && (Report.SharedBy(selected, x) || x == |selected|)
  {
    var r := Tally.Ranked(Seed(|selected|), selected);
    Tally.RankedMeaning(Seed(|selected|), selected);
    BodyHeaders(r, selected);
  }

  /** The groups of the economy body over ranked pairs, closed by the divider. */
  lemma BodyGroups(r: seq<Tally.Tally>, selected: seq<SpeciesTable.Species>)
    requires Tally.RankedBy(r, Seed(|selected|), selected)
    ensures Report.Grouped(Report.EconomyBody(r, Lists.None, |selected|) + [Report.Divider], Seed(|selected|), selected, |selected|)
    ensures Report.SharedOnly(Report.EconomyBody(r, Lists.None, |selected|) + [Report.Divider], Seed(|selected|), selected)
    ensures Report.HeadersLead(Report.EconomyBody(r, Lists.None, |selected|) + [Report.Divider], Seed(|selected|), selected, |selected|)
  {
    var seed := Seed(|selected|);
    var body := Report.EconomyBody(r, Lists.None, |selected|);
    Report.EconomyGrouped(r, seed, selected, Lists.None, |selected|);
    Report.ClosedGroups(body, seed, selected, |selected|);
    Report.OwnHeader(body + [Report.Divider], seed, selected, |selected|);
  }

  /**
   * The report's groups: every need it lists has a count of at least 2
   * (its seed plus the species that list it) and sits under the "Needed by
   * count/total" header of that count, with no other header between them;
   * every header is followed by a divider and a need of its count.
   */
  lemma ReportGroups(selected: seq<SpeciesTable.Species>)
    ensures Report.Grouped(EconomyReport(selected), Seed(|selected|), selected, |selected|)
    ensures Report.SharedOnly(EconomyReport(selected), Seed(|selected|), selected)
    ensures Report.HeadersLead(EconomyReport(selected), Seed(|selected|), selected, |selected|)
  {
    Tally.RankedMeaning(Seed(|selected|), selected);
    BodyGroups(Tally.Ranked(Seed(|selected|), selected), selected);
  }

  /** With fewer than two species no pair reaches a count of 2. */
  lemma FewPairsShared(r: seq<Tally.Tally>, selected: seq<SpeciesTable.Species>)
    requires Tally.RankedBy(r, Seed(|selected|), selected)
    requires |selected| < 2
    ensures forall k :: 0 <= k < |r| ==> r[k].count < 2
  {
    forall k | 0 <= k < |r| ensures r[k].count < 2 {
      Tally.OccurrencesBound(selected, r[k].need);
      PairShared(r, selected, k);
    }
  }

  /** With fewer than two species selected the report is the closing divider alone. */
  lemma FewSpeciesReport(selected: seq<SpeciesTable.Species>)
    requires |selected| < 2
    ensures EconomyReport(selected) == [Report.Divider]
  {
    var r := Tally.Ranked(Seed(|selected|), selected);
    Tally.RankedMeaning(Seed(|selected|), selected);
    FewPairsShared(r, selected);
    Report.EconomyQuiet(r, Lists.None, |selected|);
  }

  /** `new` checks wood and nothing else in the fuel menu. */
  lemma WoodPreselected()
    ensures Menus.CheckedOptions(Menus.Selected(Menus.Unticked(Goods.AllFuel()), [Goods.Fuel(Goods.Wood)]))
      == [Goods.Fuel(Goods.Wood)]
  {
    var wood := Goods.Fuel(Goods.Wood);
    var e := Menus.Selected(Menus.Unticked(Goods.AllFuel()), [wood]);
    var others := Goods.AllFuel()[..3];
    assert e[..3] == Menus.Unticked(others);
    Menus.UntickedIsEmpty(others, Goods.Display);
    assert e[3] == Menus.Entry(wood, Menus.Checked);
  }

  class Economy {
    const species: Menus.MultiSelectMenu<SpeciesTable.Species>
    const services: Menus.MultiSelectMenu<Needs.Service>
    const fuel: Menus.MultiSelectMenu<Goods.Good>
    const craftingResources: Menus.MultiSelectMenu<Goods.Good>
    const buildingMaterials: Menus.MultiSelectMenu<Goods.Good>
    const consumableItems: Menus.MultiSelectMenu<Goods.Good>
    const simpleFood: Menus.MultiSelectMenu<Goods.Good>
    const complexFood: Menus.MultiSelectMenu<Goods.Good>
    const clothing: Menus.MultiSelectMenu<Goods.Good>
    const switcher: Menus.SingleSelectMenu<MenuKind>

    /** The seven goods menus own seven different rows. */
    predicate SeparateRows() {
      && fuel.entries != craftingResources.entries && fuel.entries != buildingMaterials.entries
      && fuel.entries != consumableItems.entries && fuel.entries != simpleFood.entries
      && fuel.entries != complexFood.entries && fuel.entries != clothing.entries
      && craftingResources.entries != buildingMaterials.entries && craftingResources.entries != consumableItems.entries
      && craftingResources.entries != simpleFood.entries && craftingResources.entries != complexFood.entries
      && craftingResources.entries != clothing.entries && buildingMaterials.entries != consumableItems.entries
      && buildingMaterials.entries != simpleFood.entries && buildingMaterials.entries != complexFood.entries
      && buildingMaterials.entries != clothing.entries && consumableItems.entries != simpleFood.entries
      && consumableItems.entries != complexFood.entries && consumableItems.entries != clothing.entries
      && simpleFood.entries != complexFood.entries && simpleFood.entries != clothing.entries
      && complexFood.entries != clothing.entries
    }

    /**
     * Each menu shows its options by their display strings and owns its own
     * row, and the switcher is the one `new` builds.
     */
    ghost predicate Valid()
    {
      && species.display == SpeciesTable.Display
      && services.display == Needs.ServiceDisplay
      && fuel.display == Goods.Display && craftingResources.display == Goods.Display
      && buildingMaterials.display == Goods.Display && consumableItems.display == Goods.Display
      && simpleFood.display == Goods.Display && complexFood.display == Goods.Display
      && clothing.display == Goods.Display
      && SeparateRows()
      && switcher == Switcher()
    }

    /**
     * `new`: every menu over its whole catalogue with nothing checked, except
     * that wood is the one fuel checked.
     */
    constructor ()
      ensures Valid()
      ensures species.title == "Select your species:"
      ensures species.entries[..] == Menus.Unticked(SpeciesTable.AllSpecies())
      ensures services.title == "Select services you can provide:"
      ensures services.entries[..] == Menus.Unticked(Needs.AllServices())
      ensures fuel.title == "Select the you can produce:"
      ensures fuel.entries[..] == Menus.Selected(Menus.Unticked(Goods.AllFuel()), [Goods.Fuel(Goods.Wood)])
      ensures craftingResources.title == "Select the crafting resources you can produce:"
      ensures craftingResources.entries[..] == Menus.Unticked(Goods.AllCraftingResources())
      ensures buildingMaterials.title == "Select the building materials you can produce:"
      ensures buildingMaterials.entries[..] == Menus.Unticked(Goods.AllBuildingMaterials())
      ensures consumableItems.title == "Select the consumable items you can produce:"
      ensures consumableItems.entries[..] == Menus.Unticked(Goods.AllConsumableItems())
      ensures simpleFood.title == "Select the simple food you can produce:"
      ensures simpleFood.entries[..] == Menus.Unticked(Goods.AllSimpleFood())
      ensures complexFood.title == "Select the complex food you can produce:"
      ensures complexFood.entries[..] == Menus.Unticked(Goods.AllComplexFood())
      ensures clothing.title == "Select the clothing you can produce:"
      ensures clothing.entries[..] == Menus.Unticked(Goods.AllClothing())
    {
      species := new Menus.MultiSelectMenu("Select your species:", SpeciesTable.AllSpecies(), SpeciesTable.Display);
      services := new Menus.MultiSelectMenu("Select services you can provide:", Needs.AllServices(), Needs.ServiceDisplay);
      fuel := new Menus.MultiSelectMenu("Select the you can produce:", Goods.AllFuel(), Goods.Display);
      craftingResources := new Menus.MultiSelectMenu(
        "Select the crafting resources you can produce:", Goods.AllCraftingResources(), Goods.Display);
      buildingMaterials := new Menus.MultiSelectMenu(
        "Select the building materials you can produce:", Goods.AllBuildingMaterials(), Goods.Display);
      consumableItems := new Menus.MultiSelectMenu(
        "Select the consumable items you can produce:", Goods.AllConsumableItems(), Goods.Display);
      simpleFood := new Menus.MultiSelectMenu(
        "Select the simple food you can produce:", Goods.AllSimpleFood(), Goods.Display);
      complexFood := new Menus.MultiSelectMenu(
        "Select the complex food you can produce:", Goods.AllComplexFood(), Goods.Display);
      clothing := new Menus.MultiSelectMenu("Select the clothing you can produce:", Goods.AllClothing(), Goods.Display);
      switcher := Switcher();
      new;
      fuel.Select([Goods.Fuel(Goods.Wood)]);
    }

    /** No species is checked: the species menu's view is empty. */
    predicate NoSpecies()
      reads species.entries
    {
      Menus.ViewOf(species.entries[..], species.display).isEmpty
    }

    /** What the goods menus have checked, in facet order. */
    function GoodsSelections(): seq<Goods.Good>
      reads fuel.entries, craftingResources.entries, buildingMaterials.entries, consumableItems.entries
      reads simpleFood.entries, complexFood.entries, clothing.entries
    {
      fuel.GetSelections() + craftingResources.GetSelections() + buildingMaterials.GetSelections()
        + consumableItems.GetSelections() + simpleFood.GetSelections() + complexFood.GetSelections()
        + clothing.GetSelections()
    }

    /** `selected_facets`: the selection strings of every menu but species, concatenated. */
    function SelectedFacets(): seq<string>
      reads services.entries, fuel.entries, craftingResources.entries, buildingMaterials.entries
      reads consumableItems.entries, simpleFood.entries, complexFood.entries, clothing.entries
    {
      services.GetSelectionStrings() + fuel.GetSelectionStrings() + craftingResources.GetSelectionStrings()
        + buildingMaterials.GetSelectionStrings() + consumableItems.GetSelectionStrings()
        + simpleFood.GetSelectionStrings() + complexFood.GetSelectionStrings() + clothing.GetSelectionStrings()
    }

    /**
     * `print_needs`: seeds the counter with the building materials, counts
     * the needs of the selected species, sorts the pairs by descending count
     * and emits the report, coloured against the selected facets.
     */
    method PrintNeeds() returns (lines: seq<Report.Line>, colouring: Report.Colouring)
      ensures lines == EconomyReport(species.GetSelections())
      ensures colouring == Report.Facets(SelectedFacets())
    {
      var selected := species.GetSelections();
      var numSpecies := |selected|;
      var counter: map<Needs.Need, nat> := map[];
      counter := counter[Needs.BuildingMaterial(Goods.Planks) := numSpecies];
      counter := counter[Needs.BuildingMaterial(Goods.Fabric) := numSpecies];
      counter := counter[Needs.BuildingMaterial(Goods.Bricks) := numSpecies];
      assert counter == Seed(numSpecies);
      counter := Tally.CountNeeds(selected, counter);
      var sorted := Tally.SortByCount(Tally.Entries(counter));
      var facets := services.GetSelectionStrings() + fuel.GetSelectionStrings()
        + craftingResources.GetSelectionStrings() + buildingMaterials.GetSelectionStrings()
        + consumableItems.GetSelectionStrings() + simpleFood.GetSelectionStrings()
        + complexFood.GetSelectionStrings() + clothing.GetSelectionStrings();
      lines := EconomyLines(sorted, numSpecies);
      colouring := Report.Facets(facets);
    }

    /** The edit of one menu: its row is re-selected by the user's answer; every other row stays as it was. */
    method Edit(kind: MenuKind, answer: seq<string>)
      requires SeparateRows()
      modifies species.entries, services.entries, fuel.entries, craftingResources.entries
      modifies buildingMaterials.entries, consumableItems.entries, simpleFood.entries
      modifies complexFood.entries, clothing.entries
      ensures kind == EditSpecies ==> species.entries[..] == Menus.StringlySelected(old(species.entries[..]), species.display, answer)
      ensures kind != EditSpecies ==> unchanged(species.entries)
      ensures kind == EditServices ==> services.entries[..] == Menus.StringlySelected(old(services.entries[..]), services.display, answer)
      ensures kind != EditServices ==> unchanged(services.entries)
      ensures kind == EditFuel ==> fuel.entries[..] == Menus.StringlySelected(old(fuel.entries[..]), fuel.display, answer)
      ensures kind != EditFuel ==> unchanged(fuel.entries)
      ensures kind == EditCraftingResources ==> craftingResources.entries[..] == Menus.StringlySelected(old(craftingResources.entries[..]), craftingResources.display, answer)
      ensures kind != EditCraftingResources ==> unchanged(craftingResources.entries)
      ensures kind == EditBuildingMaterials ==> buildingMaterials.entries[..] == Menus.StringlySelected(old(buildingMaterials.entries[..]), buildingMaterials.display, answer)
      ensures kind != EditBuildingMaterials ==> unchanged(buildingMaterials.entries)
      ensures kind == EditConsumableItems ==> consumableItems.entries[..] == Menus.StringlySelected(old(consumableItems.entries[..]), consumableItems.display, answer)
      ensures kind != EditConsumableItems ==> unchanged(consumableItems.entries)
      ensures kind == EditSimpleFood ==> simpleFood.entries[..] == Menus.StringlySelected(old(simpleFood.entries[..]), simpleFood.display, answer)
      ensures kind != EditSimpleFood ==> unchanged(simpleFood.entries)
      ensures kind == EditComplexFood ==> complexFood.entries[..] == Menus.StringlySelected(old(complexFood.entries[..]), complexFood.display, answer)
      ensures kind != EditComplexFood ==> unchanged(complexFood.entries)
      ensures kind == EditClothing ==> clothing.entries[..] == Menus.StringlySelected(old(clothing.entries[..]), clothing.display, answer)
      ensures kind != EditClothing ==> unchanged(clothing.entries)
    {
      match kind
      case EditSimpleFood => simpleFood.StringlySelect(answer);
      case EditBuildingMaterials => buildingMaterials.StringlySelect(answer);
      case EditFuel => fuel.StringlySelect(answer);
      case EditCraftingResources => craftingResources.StringlySelect(answer);
      case EditComplexFood => complexFood.StringlySelect(answer);
      case EditClothing => clothing.StringlySelect(answer);
      case EditConsumableItems => consumableItems.StringlySelect(answer);
      case EditServices => services.StringlySelect(answer);
      case EditSpecies => species.StringlySelect(answer);
    }

    /**
     * One round of `plan`: print the report, then re-select the edited menu
     * by the user's answer: the species menu while no species is selected,
     * otherwise the menu picked in the switcher. Every other menu stays as it
     * was.
     */
    method PlanStep(answer: seq<string>, choice: string) returns (lines: seq<Report.Line>, colouring: Report.Colouring)
      requires Valid()
      requires NoSpecies() || Offered(choice)
      modifies species.entries, services.entries, fuel.entries, craftingResources.entries
      modifies buildingMaterials.entries, consumableItems.entries, simpleFood.entries
      modifies complexFood.entries, clothing.entries
      ensures Valid()
      ensures lines == EconomyReport(old(species.GetSelections()))
      ensures colouring == Report.Facets(old(SelectedFacets()))
      ensures Edited(old(NoSpecies()), choice) == EditSpecies ==> species.entries[..] == Menus.StringlySelected(old(species.entries[..]), species.display, answer)
      ensures Edited(old(NoSpecies()), choice) != EditSpecies ==> unchanged(species.entries)
      ensures Edited(old(NoSpecies()), choice) == EditServices ==> services.entries[..] == Menus.StringlySelected(old(services.entries[..]), services.display, answer)
      ensures Edited(old(NoSpecies()), choice) != EditServices ==> unchanged(services.entries)
      ensures Edited(old(NoSpecies()), choice) == EditFuel ==> fuel.entries[..] == Menus.StringlySelected(old(fuel.entries[..]), fuel.display, answer)
      ensures Edited(old(NoSpecies()), choice) != EditFuel ==> unchanged(fuel.entries)
      ensures Edited(old(NoSpecies()), choice) == EditCraftingResources ==> craftingResources.entries[..] == Menus.StringlySelected(old(craftingResources.entries[..]), craftingResources.display, answer)
      ensures Edited(old(NoSpecies()), choice) != EditCraftingResources ==> unchanged(craftingResources.entries)
      ensures Edited(old(NoSpecies()), choice) == EditBuildingMaterials ==> buildingMaterials.entries[..] == Menus.StringlySelected(old(buildingMaterials.entries[..]), buildingMaterials.display, answer)
      ensures Edited(old(NoSpecies()), choice) != EditBuildingMaterials ==> unchanged(buildingMaterials.entries)
      ensures Edited(old(NoSpecies()), choice) == EditConsumableItems ==> consumableItems.entries[..] == Menus.StringlySelected(old(consumableItems.entries[..]), consumableItems.display, answer)
      ensures Edited(old(NoSpecies()), choice) != EditConsumableItems ==> unchanged(consumableItems.entries)
      ensures Edited(old(NoSpecies()), choice) == EditSimpleFood ==> simpleFood.entries[..] == Menus.StringlySelected(old(simpleFood.entries[..]), simpleFood.display, answer)
      ensures Edited(old(NoSpecies()), choice) != EditSimpleFood ==> unchanged(simpleFood.entries)
      ensures Edited(old(NoSpecies()), choice) == EditComplexFood ==> complexFood.entries[..] == Menus.StringlySelected(old(complexFood.entries[..]), complexFood.display, answer)
      ensures Edited(old(NoSpecies()), choice) != EditComplexFood ==> unchanged(complexFood.entries)
      ensures Edited(old(NoSpecies()), choice) == EditClothing ==> clothing.entries[..] == Menus.StringlySelected(old(clothing.entries[..]), clothing.display, answer)
      ensures Edited(old(NoSpecies()), choice) != EditClothing ==> unchanged(clothing.entries)
    {
      lines, colouring := PrintNeeds();
      var view := species.View();
      if view.isEmpty {
        Edit(EditSpecies, answer);
      } else {
        Edit(switcher.Choose(choice), answer);
      }
    }

    /** A good's name is a selected facet iff the good is checked in one of the goods menus. */
    lemma GoodFacet(g: Goods.Good)
      requires Valid()
      ensures Goods.Display(g) in SelectedFacets() <==> g in GoodsSelections()
    {
      forall y ensures Goods.Display(y) == Goods.Display(g) ==> y == g {
        Goods.DisplayInjective(y, g);
      }
      forall s ensures Needs.ServiceDisplay(s) != Goods.Display(g) {
        Needs.ServiceDisplayNotGood(s, g);
      }
      Menus.SelectionStringsLack(services.entries[..], services.display, Goods.Display(g));
      Menus.SelectionStringsHave(fuel.entries[..], fuel.display, g);
      Menus.SelectionStringsHave(craftingResources.entries[..], craftingResources.display, g);
      Menus.SelectionStringsHave(buildingMaterials.entries[..], buildingMaterials.display, g);
      Menus.SelectionStringsHave(consumableItems.entries[..], consumableItems.display, g);
      Menus.SelectionStringsHave(simpleFood.entries[..], simpleFood.display, g);
      Menus.SelectionStringsHave(complexFood.entries[..], complexFood.display, g);
      Menus.SelectionStringsHave(clothing.entries[..], clothing.display, g);
    }

    /** A service's name is a selected facet iff the service is checked in the services menu. */
    lemma ServiceFacet(s: Needs.Service)
      requires Valid()
      ensures Needs.ServiceDisplay(s) in SelectedFacets() <==> s in services.GetSelections()
    {
      forall y ensures Needs.ServiceDisplay(y) == Needs.ServiceDisplay(s) ==> y == s {
        Needs.DisplayInjective(Needs.Service(y), Needs.Service(s));
      }
      forall g ensures Goods.Display(g) != Needs.ServiceDisplay(s) {
        Needs.ServiceDisplayNotGood(s, g);
      }
      var w := Needs.ServiceDisplay(s);
      Menus.SelectionStringsHave(services.entries[..], services.display, s);
      Menus.SelectionStringsLack(fuel.entries[..], fuel.display, w);
      Menus.SelectionStringsLack(craftingResources.entries[..], craftingResources.display, w);
      Menus.SelectionStringsLack(buildingMaterials.entries[..], buildingMaterials.display, w);
      Menus.SelectionStringsLack(consumableItems.entries[..], consumableItems.display, w);
      Menus.SelectionStringsLack(simpleFood.entries[..], simpleFood.display, w);
      Menus.SelectionStringsLack(complexFood.entries[..], complexFood.display, w);
      Menus.SelectionStringsLack(clothing.entries[..], clothing.display, w);
    }

    /**
     * `colorize` on a recipe line: each alternative is shown selected iff
     * that good is checked in one of the goods menus, and unselected
     * otherwise.
     */
    lemma SlotHighlight(line: Report.Line, k: nat)
      requires Valid()
      requires line.SlotLine? && k < |line.alternatives|
      ensures k < |Report.Tokens(line, Report.Facets(SelectedFacets()))|
      ensures Report.Tokens(line, Report.Facets(SelectedFacets()))[k].highlight == Report.Selected <==>
        line.alternatives[k] in GoodsSelections()
      ensures Report.Tokens(line, Report.Facets(SelectedFacets()))[k].highlight != Report.Plain
    {
      GoodFacet(line.alternatives[k]);
    }

    /**
     * `colorize` in the report: a need is shown selected iff what it names
     * (a service, or the good it wraps) is checked in its menu, and
     * unselected otherwise.
     */
    lemma NeedHighlight(n: Needs.Need)
      requires Valid()
      ensures Report.Paint(Report.Facets(SelectedFacets()), Needs.Display(n)) == Report.Selected <==>
        if n.Service? then n.service in services.GetSelections() else Needs.WrappedGood(n).value in GoodsSelections()
    {
      if n.Service? {
        ServiceFacet(n.service);
      } else {
        GoodFacet(Needs.WrappedGood(n).value);
      }
    }
  }
}
