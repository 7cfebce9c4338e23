# For the Queen: needs aggregation and recipe resolution

A Dafny model of the planning core of `for-the-queen-cli`, a terminal helper
for a city-builder. The player ticks the species living in their settlement
and the goods and services they can produce. The program then prints every
need that at least two of those species share, grouped under "Needed by
count/total species" headers. Each need comes with its recipe: every slot is
one line of OR-joined alternatives, and a slot with a single alternative is
expanded one level deeper into that ingredient's own recipe. In the economy
planner each name is coloured green when it is selected and red when it is
not.

The model has these modules:

- `Goods` (goods.dfy): the catalogue of the seven goods categories and the
  `Good` sum type over them. It holds every recipe table, the `all_*`
  catalogue lists and `all_goods`, and the display names. The catalogue is
  duplicated in the source as `Resource` (src/resource.rs) and `Good`
  (src/goods.rs); the two tables are entry-for-entry the same, so one
  datatype models both. Each good has a tier, a number strictly above the
  tier of every ingredient; it proves the recipe graph acyclic.
- `Needs` (needs.dfy): `Service`, `all_services`, the service recipes and
  the `Need` sum type. It also covers `Need`'s derived ordering, its
  recipe and its display.
- `SpeciesTable` (species.dfy): `Species`, `all_species`, the needs
  table, `Display` and `TryFrom`.
- `LegacyNeeds` and `LegacySpecies` (legacy_needs.dfy, legacy_species.dfy):
  the older flat 15-variant `Need` and 4-species table under src/logic/.
- `Text` (text.dfy): `titleize`, `pascalize` and `pluralize`.
- `Menus` (menus.dfy): the `MultiSelectMenu` class. It holds an array of
  (option, checkbox) entries that `Select`, `StringlySelect` and `View`
  work on in place. The module also holds the lookup step of
  `SingleSelectMenu`.
- `Tally` (tally.dfy): the need counter. It is filled by a loop over the
  selected species, read back in key order and sorted by descending count
  with a stable sort.
- `Report` (report.dfy): the report as a sequence of structured lines
  (divider, header, need line, slot line with its depth). It also holds
  the highlight of every displayed name, in place of printed, coloured
  text.
- `PlannedEconomy` (planned_economy.dfy): the older planner. It has its own
  `Menu` class and a `print_needs` that prints every need, including those
  only one species has.
- `Economy` (economy.dfy): the current planner. It covers `Economy::new`,
  `print_needs` and one round of `plan`, which is the render followed by
  the edit of the menu the router chooses.

The loops the source writes out as `for` or `for_each` statements are Dafny
methods with loops: the counting loops (`Tally.CountNeeds`, `Tally.AddNeeds`),
the report loops (`Economy.EconomyLines`, `PlannedEconomy.PlannedLines`,
`Report.AppendSlots`, `Report.AppendNested`) and the in-place menu updates and
view (`Menus.SelectValues`, `Menus.SelectStrings`, `Menus.ViewRow`). Each one
is proved equal to a specification function, and the properties of the
report are proved about those functions. Examples are the set of needs
listed, the header counts, the grouping of needs under their headers, the
order and the nested expansion.

Three iterations that the source leaves to the standard library are pure
functions instead:

- the in-place `sort_by` of the counted pairs is the recursive stable
  insertion sort `Tally.SortByCount`;
- the `filter_map`/`map` iterator chains of `get_selections` and
  `get_selection_strings` are `Menus.CheckedOptions` and
  `Menus.CheckedStrings`;
- the `find` in `try_from` is `Lists.FindFirst`.

The source is mid-refactor. It does not build as given, and the model
settles these points:

- `print_needs` in src/economy.rs seeds `Need::BuildingMaterial`, a variant
  that src/needs.rs does not declare. The model gives `Need` a fourth
  variant `BuildingMaterial`, declared after `Service`. Under the derived
  ordering every building-material need therefore sorts after every
  clothing, food and service need (`Needs.BuildingMaterialsLast`).
- src/logic/species.rs uses the crate's five-species `all_species`, whose
  type is not its own `Species`. The model gives that module its own four
  species in declaration order.
- The fuel menu's title in `Economy::new` is "Select the you can produce:".
  The model keeps that text as written.
- The `need_counter` of the planned economy holds `i8` values. The model
  counts in `nat` and proves every count is at most 5, so the source's
  counter cannot overflow (`PlannedEconomy.PlannedEconomy.CountsFit`).

## Model

| member | source | states |
|---|---|---|
| Goods.Display | src/resource.rs:18-34 | a good displays as the title of its wrapped variant's words; `Resource` forwards to the category value unchanged |
| Goods.DisplayInjective | src/resource.rs:18-34 | display strings of distinct goods differ, and `pascalize` of a display string gives back the variant name |
| Goods.StonesDisplay | src/resource.rs:243-245 | `Stones` displays as "Stones" even though its constructor helper is `stone()` |
| Goods.WordsAreWords | src/resource.rs:7-16 | every variant name of every good is PascalCase: capitalised words written together |
| Goods.FuelWordsAreWords | src/resource.rs:63-69 | fuel variant names are PascalCase |
| Goods.CraftingResourceWordsAreWords | src/resource.rs:105-129 | crafting resource variant names are PascalCase |
| Goods.CraftingResourceWordsAreWords1 | src/resource.rs:107-112 | the names Pottery to ClearanceWater are PascalCase |
| Goods.CraftingResourceWordsAreWords2 | src/resource.rs:113-118 | the names Resin to Reed are PascalCase |
| Goods.CraftingResourceWordsAreWords3 | src/resource.rs:119-123 | the names Herbs to CopperBars are PascalCase |
| Goods.CraftingResourceWordsAreWords4 | src/resource.rs:124-128 | the names CrystallizedDew to CopperOre are PascalCase |
| Goods.BuildingMaterialWordsAreWords | src/resource.rs:286-291 | building material names are PascalCase |
| Goods.ConsumableItemWordsAreWords | src/resource.rs:325-333 | consumable item names are PascalCase |
| Goods.SimpleFoodWordsAreWords | src/resource.rs:397-407 | simple food names are PascalCase |
| Goods.ClothingWordsAreWords | src/resource.rs:471-475 | clothing names are PascalCase |
| Goods.ComplexFoodWordsAreWords | src/resource.rs:504-513 | complex food names are PascalCase |
| Goods.WordsInjective | src/resource.rs:7-16 | two goods have the same variant words iff they are the same good |
| Goods.FuelWordsInjective | src/resource.rs:63-69 | a fuel shares its words with no other good |
| Goods.CraftingResourceWordsInjective | src/resource.rs:105-129 | a crafting resource shares its words with no other good |
| Goods.BuildingMaterialWordsInjective | src/resource.rs:286-291 | a building material shares its words with no other good |
| Goods.ConsumableItemWordsInjective | src/resource.rs:325-333 | a consumable item shares its words with no other good |
| Goods.SimpleFoodWordsInjective | src/resource.rs:397-407 | a simple food shares its words with no other good |
| Goods.ComplexFoodWordsInjective | src/resource.rs:504-513 | a complex food shares its words with no other good |
| Goods.ClothingWordsInjective | src/resource.rs:471-475 | a clothing item shares its words with no other good |
| Goods.FuelRecipe | src/resource.rs:77-86 | every fuel recipe slot is non-empty, at most three slots, empty exactly for SeaMarrow and Wood |
| Goods.CraftingResourceRecipe | src/resource.rs:137-169 | every crafting resource recipe slot is non-empty, at most three slots, empty exactly for the ten raw ones |
| Goods.BuildingMaterialRecipe | src/resource.rs:299-307 | building material recipes are non-empty with non-empty slots |
| Goods.ConsumableItemRecipe | src/resource.rs:341-367 | consumable item recipes are non-empty with non-empty slots |
| Goods.SimpleFoodRecipe | src/resource.rs:415-424 | simple food recipe slots are non-empty; empty exactly for Roots, Vegetables, Fish, Insects, Berries |
| Goods.ClothingRecipe | src/resource.rs:495-502 | clothing recipes are non-empty with non-empty slots |
| Goods.ComplexFoodRecipe | src/resource.rs:561-591 | complex food recipes are non-empty with non-empty slots |
| Goods.Recipe | src/resource.rs:36-48 | `recipe` forwards to the category table; every slot offers at least one alternative |
| Goods.RecipeDescends | src/resource.rs:36-48 | every ingredient of a good has a strictly lower tier than the good |
| Goods.FuelRecipeDescends | src/resource.rs:77-86 | fuel ingredients are of lower tier |
| Goods.CraftingResourceRecipeDescends | src/resource.rs:137-169 | crafting resource ingredients are of lower tier |
| Goods.BuildingMaterialRecipeDescends | src/resource.rs:299-307 | building material ingredients are of lower tier |
| Goods.ConsumableItemRecipeDescends | src/resource.rs:341-367 | consumable item ingredients are of lower tier |
| Goods.SimpleFoodRecipeDescends | src/resource.rs:415-424 | simple food ingredients are of lower tier |
| Goods.ComplexFoodRecipeDescends | src/resource.rs:561-591 | complex food ingredients are of lower tier |
| Goods.ClothingRecipeDescends | src/resource.rs:495-502 | clothing ingredients are of lower tier |
| Goods.ChainDescends | src/resource.rs:36-48 | along any chain of ingredients the tier strictly decreases |
| Goods.RecipesAcyclic | src/resource.rs:36-48 | no good is, directly or through a chain, an ingredient of itself |
| Goods.ChainsAreShort | src/resource.rs:36-48 | every ingredient chain bottoms out within tier+1 steps |
| Goods.SkewersChain | src/resource.rs:580-588 | Skewers, Jerky, Meat, Reed, ClearanceWater is an ingredient chain ending in a raw good |
| Goods.RawGoodsHaveEmptyRecipes | src/resource.rs:77-591 | a recipe is empty iff the good is one of the 17 raw goods |
| Goods.CraftingResourceRaw | src/resource.rs:137-169 | a crafting resource recipe is empty iff it is one of the ten raw crafting resources |
| Goods.RawCraftingResourcesListed | src/resource.rs:157-166 | every tier-0 crafting resource is among the raw goods |
| Goods.CookedCraftingResourcesUnlisted | src/resource.rs:137-156 | no crafting resource with ingredients is among the raw goods |
| Goods.OnlyCrystallizedDewHasThreeSlots | src/resource.rs:151-155 | a recipe has three slots iff it is CrystallizedDew's |
| Goods.PotteryAndClay | src/resource.rs:140-156 | Pottery's recipe is [[Clay],[Wood,Oil,Coal,SeaMarrow]] and Clay's is [[ClearanceWater]] |
| Goods.BiscuitsAndPieNeedFlour | src/resource.rs:568-575 | Biscuits and Pie start with the slot [Flour], whose recipe is one slot of four alternatives |
| Goods.AllFuel | src/resource.rs:101-103 | `all_fuel` lists the fuels in declaration order |
| Goods.AllCraftingResources | src/resource.rs:259-284 | `all_crafting_resources` lists them in declaration order |
| Goods.AllBuildingMaterials | src/resource.rs:321-323 | `all_building_materials` lists them in declaration order |
| Goods.AllConsumableItems | src/resource.rs:393-395 | `all_consumable_items` lists them in declaration order |
| Goods.AllSimpleFood | src/resource.rs:458-469 | `all_simple_food` lists them in declaration order |
| Goods.AllClothing | src/resource.rs:491-493 | `all_clothing` lists them in declaration order |
| Goods.AllComplexFood | src/resource.rs:549-559 | `all_complex_food` lists them in declaration order |
| Goods.CategoryListMembers | src/resource.rs:50-61 | each category list holds exactly the goods of its category |
| Goods.CategoryListNoDup | src/resource.rs:50-61 | each category list is duplicate-free |
| Goods.FuelListMembers | src/resource.rs:101-103 | a good is in `all_fuel` iff it is a fuel |
| Goods.CraftingResourceListMembers | src/resource.rs:259-284 | a good is in `all_crafting_resources` iff it is a crafting resource |
| Goods.BuildingMaterialListMembers | src/resource.rs:321-323 | a good is in `all_building_materials` iff it is a building material |
| Goods.ClothingListMembers | src/resource.rs:491-493 | a good is in `all_clothing` iff it is clothing |
| Goods.SimpleFoodListMembers | src/resource.rs:458-469 | a good is in `all_simple_food` iff it is a simple food |
| Goods.ComplexFoodListMembers | src/resource.rs:549-559 | a good is in `all_complex_food` iff it is a complex food |
| Goods.ConsumableItemListMembers | src/resource.rs:393-395 | a good is in `all_consumable_items` iff it is a consumable item |
| Goods.AllGoodsIsPrefix | src/resource.rs:50-61 | `all_goods` concatenates the seven category lists in their fixed order |
| Goods.AllGoodsComplete | src/resource.rs:50-61 | `all_goods` has 52 entries and holds every good exactly once |
| Goods.AllGoods | src/resource.rs:50-61 | `all_goods`: the seven category lists concatenated, fuel first and consumable items last, as `Goods.AllGoodsIsPrefix` and `Goods.AllGoodsComplete` state |
| Needs.ServiceWordsAreWords | src/needs.rs:38-46 | service variant names are PascalCase |
| Needs.AllServices | src/needs.rs:54-63 | `all_services` lists the six services in declaration order |
| Needs.AllServicesComplete | src/needs.rs:54-63 | every service is listed, and none twice |
| Needs.ServiceGoodBijective | src/needs.rs:89-99 | services and consumable items correspond one to one; no two services share a good |
| Needs.ServiceRecipe | src/needs.rs:89-99 | a service's recipe is one slot of one consumable item, which supplies that service |
| Needs.ServiceRecipes | src/needs.rs:89-99 | Education needs Scrolls, Religion Incense, Treatment Tea, Luxury Wine, Leisure Ale, Brawling TrainingGear |
| Needs.Recipe | src/needs.rs:14-22 | a need that wraps a good has that good's recipe unchanged; a service need has its one-slot recipe |
| Needs.Display | src/needs.rs:24-36 | a need displays as the title of its inner variant name, the same text as the wrapped good |
| Needs.ServiceDisplay | src/needs.rs:48-52 | a service displays as the title of its variant name, as the need wrapping it does |
| Needs.ServiceDisplayNotGood | src/needs.rs:48-52 | no service's display string equals any good's, so service and goods facets never collide |
| Needs.WordsAreWords | src/needs.rs:8-12 | every need's inner variant name is PascalCase |
| Needs.WordsInjective | src/needs.rs:24-36 | two needs have the same inner variant words iff they are the same need |
| Needs.DisplayInjective | src/needs.rs:24-36 | two needs display the same iff they are equal |
| Needs.EducationDisplay | src/needs.rs:48-52 | the Education service displays as "Education" |
| Needs.Key | src/needs.rs:7-12 | each need has a position below 18 in the ascending enumeration of all needs |
| Needs.KeyOrder | src/needs.rs:7-12 | positions compare exactly as the derived ordering (variant first, then inner declaration order) and are injective |
| Needs.BelowTotal | src/needs.rs:7-12 | the derived ordering is irreflexive, transitive and total |
| Needs.AllNeeds | src/needs.rs:7-12 | the eighteen needs in ascending order, each at its own position |
| Needs.AllNeedsAscending | src/needs.rs:7-12 | every need is in the enumeration, which is strictly ascending |
| Needs.BuildingMaterialsLast | src/economy.rs:134-145 | every building-material need sorts after every other need |
| SpeciesTable.AllSpecies | src/species.rs:7-15 | `all_species` lists five species, Beavers first, each at its list position |
| SpeciesTable.AllSpeciesListed | src/species.rs:7-25 | every species is listed once, and the list order differs from the declaration order |
| SpeciesTable.Display | src/species.rs:106-110 | a species displays as the title of its variant name |
| SpeciesTable.WordsAreWords | src/species.rs:17-25 | species variant names are PascalCase |
| SpeciesTable.DisplayFacts | src/species.rs:106-110 | display strings are distinct, and `pascalize` leaves them unchanged |
| SpeciesTable.NeedsOf | src/species.rs:28-84 | Beavers has 5 needs, every other species 6, and none is a building material |
| SpeciesTable.NeedsDistinct | src/species.rs:28-84 | no species lists a need twice |
| SpeciesTable.CoatsNeededBy | src/species.rs:28-84 | Coats is needed by exactly Beavers, Harpies and Humans |
| SpeciesTable.BootsNeededBy | src/species.rs:28-84 | Boots is needed by exactly Harpies, Lizards and Foxes |
| SpeciesTable.TryFrom | src/species.rs:87-104 | the species whose display equals `pascalize(value)`, or else an InvalidInput error "{value} is not a valid species" exactly when there is none |
| SpeciesTable.TryFromDisplay | src/species.rs:90-110 | `try_from` of a species' display gives that species back |
| LegacyNeeds.RankInjective | src/logic/needs.rs:8-24 | the 15 variants are 15 distinct values |
| LegacyNeeds.WordsAreWords | src/logic/needs.rs:8-24 | every variant name is PascalCase |
| LegacyNeeds.FoodWordsAreWords | src/logic/needs.rs:9-16 | the food variant names are PascalCase |
| LegacyNeeds.OtherWordsAreWords | src/logic/needs.rs:17-23 | the other variant names are PascalCase |
| LegacyNeeds.Display | src/logic/needs.rs:26-30 | a need displays as the title of its variant name |
| LegacyNeeds.DisplayInjective | src/logic/needs.rs:8-30 | the 15 display strings are pairwise distinct |
| LegacyNeeds.DisplayExamples | src/logic/needs.rs:26-30 | PickledGoods displays as "Pickled Goods" and TrainingGear as "Training Gear" |
| LegacySpecies.AllSpecies | src/logic/species.rs:8-15 | the four species in declaration order |
| LegacySpecies.AllSpeciesListed | src/logic/species.rs:8-15 | every species is at its declaration position |
| LegacySpecies.WordsAreWords | src/logic/species.rs:8-15 | species variant names are PascalCase |
| LegacySpecies.Display | src/logic/species.rs:91-95 | a species displays as the title of its variant name |
| LegacySpecies.DisplayFacts | src/logic/species.rs:91-95 | display strings are distinct and unchanged by `pascalize` |
| LegacySpecies.NeedsOf | src/logic/species.rs:17-70 | Beavers has 5 needs, the others 6 |
| LegacySpecies.NeedsDistinct | src/logic/species.rs:17-70 | no species lists a need twice |
| LegacySpecies.CoatsNeededBy | src/logic/species.rs:17-70 | Coats is needed by exactly Beavers, Harpies and Humans |
| LegacySpecies.BootsNeededBy | src/logic/species.rs:17-70 | Boots is needed by exactly Harpies and Lizards |
| LegacySpecies.EveryNeedNeeded | src/logic/species.rs:17-70 | each of the 15 needs is listed by some species |
| LegacySpecies.TryFrom | src/logic/species.rs:72-89 | the species whose display equals `pascalize(value)`, or else an InvalidInput error exactly when there is none |
| LegacySpecies.TryFromDisplay | src/logic/species.rs:75-95 | `try_from` of a species' display gives that species back |
| Lists.FindFirst | src/species.rs:91-93 | the first element whose key equals the wanted string, or None exactly when no element has it |
| Text.TitleizeIdentifier | src/lib.rs:19-21 | `titleize` of a PascalCase name separates its words by single spaces |
| Text.Titleize | src/lib.rs:19-21 | `titleize`: the words of a name separated by single spaces, as `Text.TitleizeIdentifier` states for PascalCase names |
| Text.Pascalize | src/lib.rs:23-25 | `pascalize`: the words of a text written together, as `Text.PascalizeTitle` and `Text.PascalizeTitleize` state |
| Text.PascalizeTitle | src/lib.rs:23-25 | `pascalize` of a title writes its words together again |
| Text.PascalizeTitleize | src/lib.rs:19-25 | `pascalize` undoes `titleize` on every PascalCase name |
| Text.RecaseJoin | src/lib.rs:19-25 | recasing capitalised words joined by "" or " " joins the same words with the new glue |
| Text.IdentifierInjective | src/lib.rs:19-21 | a PascalCase name determines its word list |
| Text.TitleInjective | src/lib.rs:19-21 | two PascalCase names have the same title iff they have the same words |
| Text.TitleExample | src/lib.rs:19-21 | PickledGoods is titleized to "Pickled Goods" |
| Text.Pluralize | src/lib.rs:27-44 | "None" for no items, the item for one, "a w b" for two, the comma-joined front then ", w last" for three or more |
| Text.PluralizeListsEveryItem | src/lib.rs:32-42 | for three or more items every item appears, comma separated, with the word before the last |
| Text.PluralizeExamples | src/lib.rs:27-44 | "None", "Wood", "Clay or Stones" and "Wood, Oil, or Coal" |
| Menus.CheckedIndexes | src/menu.rs:81-85 | the indexes of exactly the checked entries, strictly ascending |
| Menus.Unticked | src/menu.rs:11-19 | `new`: each option in order with an unchecked box, as `Menus.UntickedIsEmpty` states |
| Menus.Selected | src/menu.rs:56-64 | `select(v)`: each option checked iff it occurs in v, as `Menus.SelectedMeaning` states |
| Menus.StringlySelected | src/menu.rs:66-74 | `stringly_select(ss)`: each option checked iff its display string occurs in ss, as `Menus.StringlySelectedMeaning` states |
| Menus.ViewOf | src/menu.rs:76-94 | `view`: the checked indexes, the display strings and `is_empty`, as `Menus.ViewMeaning` states |
| Menus.CheckedOptions | src/menu.rs:43-54 | `get_selections`: the options at the checked indexes, in row order |
| Menus.CheckedBound | src/menu.rs:43-54 | a row has at most as many selections as options |
| Menus.CheckedStrings | src/menu.rs:36-41 | `get_selection_strings`: the display strings of the selections, in order |
| Menus.ViewMeaning | src/menu.rs:76-94 | `view` gives every display string in order, strictly increasing indexes of exactly the checked entries, and `is_empty` iff none is checked |
| Menus.UntickedIsEmpty | src/menu.rs:11-19 | `new` keeps the options in order, checks none, and its view is empty |
| Menus.SelectedMeaning | src/menu.rs:56-64 | after `select(v)` option i is checked iff it is in v; the options are unchanged |
| Menus.SelectReplaces | src/menu.rs:56-64 | `select` ignores the prior checkboxes and is idempotent |
| Menus.SelectedSelections | src/menu.rs:43-64 | after `select(v)` the selections are exactly the options that occur in v |
| Menus.StringlySelectedMeaning | src/menu.rs:66-74 | after `stringly_select(ss)` an option is checked iff its display is in ss; strings matching no option are ignored |
| Menus.StringlyIsSelect | src/menu.rs:56-74 | with distinct display strings, selecting by the display strings of v equals selecting v |
| Menus.ConfirmDefaults | src/menu.rs:21-34 | confirming the pre-checked defaults unchanged leaves the row as it was |
| Menus.PretickedHas | src/menu.rs:21-34 | an option's display is pre-ticked iff the option is checked |
| Menus.SelectionStringsHave | src/menu.rs:36-41 | a display string unique to x is among the selection strings iff x is selected |
| Menus.SelectionStringsLack | src/menu.rs:36-41 | a string that no option displays as is never a selection string |
| Menus.SelectValues | src/menu.rs:56-64 | the loop over the array leaves it equal to the row `select(v)` specifies |
| Menus.SelectStrings | src/menu.rs:66-74 | the loop over the array leaves it equal to the row `stringly_select(ss)` specifies |
| Menus.ViewRow | src/menu.rs:76-94 | the loop builds exactly the view of the row |
| Menus.MultiSelectMenu.constructor | src/menu.rs:11-19 | a fresh row of the options in order, all unchecked, with the given title |
| Menus.MultiSelectMenu.Select | src/menu.rs:56-64 | the row becomes `select(v)` of the old row |
| Menus.MultiSelectMenu.StringlySelect | src/menu.rs:66-74 | the row becomes `stringly_select(ss)` of the old row |
| Menus.MultiSelectMenu.View | src/menu.rs:76-94 | returns the view of the current row |
| Menus.MultiSelectMenu.GetSelections | src/menu.rs:43-54 | the checked options, in row order |
| Menus.MultiSelectMenu.GetSelectionStrings | src/menu.rs:36-41 | the display strings of the selections, in order |
| Menus.SingleSelectMenu.Choose | src/menu.rs:135-139 | the first option whose display string is the chosen one |
| Tally.TalliedMeaning | src/economy.rs:146-158 | a need is a key iff it was seeded or listed; its count is its seed plus the number of selected species listing it |
| Tally.Tallied | src/economy.rs:146-158 | the counter after the counting loop: seed plus occurrences for every seeded or listed need, as `Tally.TalliedMeaning` states |
| Tally.ListedSnoc | src/economy.rs:146-158 | a need is listed by the species so far plus one more iff it was listed already or the new species lists it |
| Tally.OccursIff | src/economy.rs:150-156 | a need is counted at least once iff some selected species lists it |
| Tally.OccurrencesBound | src/planned_economy.rs:30-45 | no need is counted more often than there are selected species |
| Tally.BuildingMaterialsNeverOccur | src/species.rs:28-84 | no species adds to a building material's count |
| Tally.OccurrencesAppend | src/economy.rs:146-158 | one more species adds one to exactly the needs it lists |
| Tally.CountNeeds | src/economy.rs:146-158 | the counting loop leaves the seeded counter plus one per listing species for each need |
| Tally.AddNeeds | src/economy.rs:147-157 | the inner loop adds each listed need's number of occurrences, inserting 1 on the first |
| Tally.TalliedExtensional | src/economy.rs:146-158 | a counter with the right keys and counts is the tallied map |
| Tally.EntriesMeaning | src/economy.rs:160 | the counter is read back in strictly ascending need order, as its pairs, holding every key |
| Tally.EntriesOverMeaning | src/economy.rs:160 | reading keys in ascending order back gives exactly the counter's pairs, ascending |
| Tally.Entries | src/economy.rs:160 | the counter read back in `BTreeMap` order, as `Tally.EntriesMeaning` states |
| Tally.SortByCount | src/economy.rs:161 | `sort_by` on descending count: a permutation of the pairs (`Tally.SortKeeps`) which, given pairs in ascending need order, orders them by descending count with ties kept in need order, as a stable sort does (`Tally.SortOrdered`) |
| Tally.InsertKeeps | src/economy.rs:161 | inserting into the sorted prefix keeps the same pairs |
| Tally.InsertOrdered | src/economy.rs:161 | inserting a larger-keyed pair keeps the order: descending count, ties by ascending need |
| Tally.SortKeeps | src/economy.rs:161 | the sort is a permutation |
| Tally.SortOrdered | src/economy.rs:161 | sorting ascending pairs by descending count leaves ties in ascending need order |
| Tally.ReportOrder | src/economy.rs:160-161 | the sorted pairs are ordered and are exactly the counter's pairs |
| Tally.SortedEntries | src/economy.rs:160-161 | any ascending listing of the counter's pairs sorts into the report order |
| Tally.RankedMeaning | src/economy.rs:146-161 | the ranked pairs are ordered, each has count seed plus occurrences, and every seeded or listed need appears |
| Tally.RankedFind | src/economy.rs:146-161 | every seeded or listed need has a ranked pair with its count |
| Report.AppendNeed | src/economy.rs:185-203 | the loop appends the need line and its recipe's slot lines |
| Report.AppendSlots | src/economy.rs:187-203 | the loop appends one line per slot, each single-alternative slot followed by its nested lines |
| Report.AppendNested | src/economy.rs:195-201 | the loop appends one depth-2 line per slot of the ingredient's recipe |
| Report.Tokens | src/economy.rs:185-200 | a need line shows the need's display, a slot line each alternative's display, each painted by `colorize`; divider and header show no names |
| Report.Paint | src/economy.rs:210-217 | `colorize`: selected iff the name is among the facets, unselected otherwise, plain when nothing is coloured, as `Economy.Economy.NeedHighlight` and `Economy.Economy.SlotHighlight` state |
| Report.Render | src/economy.rs:179-200 | the text a line prints without colour codes: the divider, "Needed by count/total species", " > need" and the indented pluralized slot, as `Report.RenderHeaderExample` shows |
| Report.RenderHeaderExample | src/economy.rs:180 | a header renders as "Needed by 3/4 species" |
| Report.SlotOnly | src/economy.rs:187-203 | slot lines list no needs and no headers |
| Report.NestedShape | src/economy.rs:195-201 | nested lines are one depth-2 line per slot, never deeper |
| Report.SlotLinesShape | src/economy.rs:187-203 | slot lines have depth 1 or 2, the depth-1 lines are exactly the recipe's slots, and there is one nested line per slot of each single ingredient |
| Report.SlotBlockShape | src/economy.rs:187-200 | one slot prints its own line at depth 1, then one depth-2 line per slot of its single ingredient's recipe |
| Report.NeedBlockListed | src/economy.rs:185-203 | a need's block lists just that need and no header |
| Report.OpeningListed | src/economy.rs:178-183 | the header lines list no need and one header count |
| Report.GroupListed | src/economy.rs:177-203 | a header plus need block contributes its count and its need |
| Report.GroupNeeds | src/economy.rs:177-203 | a header plus need block lists its need before the tail's |
| Report.GroupHeaders | src/economy.rs:177-203 | a header plus need block contributes its header count, when it opens a group, before the tail's |
| Report.NeedsIn | src/economy.rs:176 | the needs of the pairs, in order |
| Report.PlannedBody | src/planned_economy.rs:50-69 | the planned report body: a header before the first need of each count of at least 2, then every need and its recipe, as `Report.PlannedNeeds`, `Report.PlannedHeaders` and `Report.PlannedGrouped` state |
| Report.EconomyBody | src/economy.rs:175-205 | the economy report body: only needs of count at least 2, each group opened by its header, as `Report.EconomyNeeds`, `Report.EconomyHeaders` and `Report.EconomyGrouped` state |
| Report.SharedMeaning | src/economy.rs:177 | the shared pairs are exactly those with count at least 2 |
| Report.PlannedNeeds | src/planned_economy.rs:50-69 | the planned report lists every pair's need, in order |
| Report.EconomyNeeds | src/economy.rs:175-205 | the economy report lists exactly the needs of pairs with count at least 2, in order |
| Report.EconomyQuiet | src/economy.rs:177 | pairs of count below 2 produce no lines |
| Report.Uncons | src/economy.rs:176 | the tail of non-increasing pairs is non-increasing and bounded by the head |
| Report.DescendingCons | src/economy.rs:178-183 | a new header before smaller ones keeps the header counts strictly descending |
| Report.EconomyHeadersDecrease | src/economy.rs:175-184 | header counts are strictly descending: one header per distinct count |
| Report.EconomyHeaders | src/economy.rs:175-184 | a count gets a header iff it is at least 2 and some pair has it |
| Report.PlannedHeadersDecrease | src/planned_economy.rs:50-58 | planned header counts are strictly descending |
| Report.PlannedHeaders | src/planned_economy.rs:50-58 | a count gets a header iff it is at least 2 and some pair has it |
| Report.SharedCount | src/economy.rs:146-161 | an unseeded need listed x times appears with count x |
| Report.SeededCount | src/economy.rs:134-161 | a seeded need appears with its seed plus occurrences |
| Report.CountOrigin | src/economy.rs:134-161 | every count comes from a listed need or a seeded one |
| Report.RankedCounts | src/economy.rs:134-161 | for x at least 2, some pair has count x iff some need is listed by x species or seeded with x |
| Report.GroupAtMeaning | src/economy.rs:176-184 | `last_count` after some lines is c iff some header of count c has no header after it, or none is a header and it was c before |
| Report.GroupAtConcat | src/economy.rs:176-184 | `last_count` after two runs of lines is what the second run leaves of the first's |
| Report.GroupAtHeaders | src/economy.rs:176-184 | `last_count` is the last header count, or its old value when no header was printed |
| Report.NoHeaderCounts | src/economy.rs:178-183 | lines have no header counts iff none is a header |
| Report.StepShape | src/economy.rs:177-203 | one group step: its header lines hold no need, its need line comes first, then slot lines, and `last_count` becomes its count when it opens a group |
| Report.OpeningLines | src/economy.rs:178-183 | a group opens with divider, header, divider, or with nothing; no need line among them |
| Report.BlockLines | src/economy.rs:185-203 | a need block starts with the need line and goes on with slot lines only |
| Report.OpeningGroup | src/economy.rs:178-183 | printing a header makes `last_count` its count; no header leaves it as it was |
| Report.BlockGroup | src/economy.rs:185-203 | a need block leaves `last_count` as it was |
| Report.InTail | src/economy.rs:176 | positions after one group step's lines are those of the rest of the report |
| Report.NeedAt | src/economy.rs:177-203 | in one group step the only need line is the step's own need |
| Report.HeaderAt | src/economy.rs:177-203 | in one group step the only header is the step's own, second after a divider |
| Report.StepOwn | src/economy.rs:177-185 | one group step keeps every need of count at least 2 in the group of its count |
| Report.StepTrailing | src/planned_economy.rs:50-59 | one group step keeps every count-1 need after every header |
| Report.StepLead | src/economy.rs:178-185 | one group step prints its header, then a divider, then its need of that count |
| Report.StepShared | src/economy.rs:177 | one group step of the economy lists a need of count at least 2 only |
| Report.CountedTail | src/economy.rs:176 | the rest of the pairs still carry their needs' counts |
| Report.EconomyGrouped | src/economy.rs:175-205 | every listed need has count at least 2 and is in the group of its count; every header is followed by a divider and a need of its count |
| Report.PlannedQuiet | src/planned_economy.rs:50-58 | pairs of count below 2 open no group |
| Report.PlannedGrouped | src/planned_economy.rs:50-69 | needs of count at least 2 are in the group of their count, count-1 needs come after every header, every header leads a need of its count |
| Report.ClosedGroups | src/economy.rs:205 | the closing divider changes no group and lists no need |
| Report.OwnHeader | src/economy.rs:176-185 | a need in the group of its count sits under the header of its count, out of the number of species, with no header between |
| Report.HeaderBefore | src/economy.rs:176-185 | when `last_count` before a line is c, the last header before it is "Needed by c/total" |
| Report.CutHeaders | src/planned_economy.rs:50-58 | cutting off lines that hold no header keeps every header count |
| Report.LastHeader | src/planned_economy.rs:50-58 | a line after every header sits under the last header, or under none when there is no header |
| Report.DescendingLast | src/planned_economy.rs:48-58 | the last of strictly descending header counts is the smallest |
| Report.SmallestGroup | src/planned_economy.rs:48-58 | with the headers exactly the shared counts, descending, a line after every header sits under the smallest shared count's header, or none |
| PlannedEconomy.Menu.constructor | src/planned_economy.rs:86-93 | a fresh row of the options in order, all unchecked |
| PlannedEconomy.Menu.Select | src/planned_economy.rs:95-103 | the row becomes the string selection of the old row, options unchanged |
| PlannedEconomy.Menu.View | src/planned_economy.rs:105-123 | returns the view of the current row |
| PlannedEconomy.Menu.GetSelections | src/planned_economy.rs:125-136 | the checked options in row order, at most as many as options |
| PlannedEconomy.PlannedLines | src/planned_economy.rs:50-70 | the report loop emits the planned report body and the closing divider |
| PlannedEconomy.PlannedEconomy.constructor | src/planned_economy.rs:21-27 | three fresh unticked menus over all species, all services and all goods |
| PlannedEconomy.PlannedEconomy.PrintNeeds | src/planned_economy.rs:29-71 | counting, sorting and the report loop produce the planned report of the selected species |
| PlannedEconomy.PlannedEconomy.CountsFit | src/planned_economy.rs:30-45 | at most 5 species are selected and every count is at most 5, so the `i8` counter never overflows |
| PlannedEconomy.RankedBound | src/planned_economy.rs:30-45 | every count is at most the number of selected species |
| PlannedEconomy.RankedNeeds | src/planned_economy.rs:30-48 | the ranked needs are exactly the needs some selected species lists |
| PlannedEconomy.ReportNeeds | src/planned_economy.rs:29-71 | the report lists every ranked need in order, count-1 needs included, and exactly the needs some species lists |
| PlannedEconomy.BodyHeaders | src/planned_economy.rs:50-58 | header counts are strictly descending, and x has a header iff x is at least 2 and some need is listed by x species |
| PlannedEconomy.ReportHeaders | src/planned_economy.rs:50-58 | in the whole report, header counts are strictly descending and are exactly the counts at least 2 that some need has |
| PlannedEconomy.BodyGroups | src/planned_economy.rs:50-70 | over ranked pairs: shared needs under their own count's header, count-1 needs after every header, every header before a divider and a need of its count |
| PlannedEconomy.ReportGroups | src/planned_economy.rs:29-71 | every need two or more species list sits under the "Needed by count/total" header of its count, with no other header between; count-1 needs come after every header; each header is followed by a divider and a need of its count |
| PlannedEconomy.BodyTrailing | src/planned_economy.rs:50-58 | over ranked pairs, a count-1 need sits under the header of the smallest shared count, or under none when nothing is shared |
| PlannedEconomy.TrailingGroups | src/planned_economy.rs:29-71 | a need only one species lists gets no header of its own: it is printed under the header of the smallest count of at least 2 that some need has, or under no header when no need is shared |
| PlannedEconomy.RankedNeedsSpecies | src/planned_economy.rs:30-48 | pairs exist only when some species is selected |
| PlannedEconomy.NoSpeciesReport | src/planned_economy.rs:29-71 | with no species selected the report is just the closing divider |
| Economy.MenuWordsAreWords | src/economy.rs:219-230 | menu kind names are PascalCase |
| Economy.MenuDisplay | src/economy.rs:232-236 | a menu kind displays as its titleized name, e.g. "Edit Simple Food" |
| Economy.MenuDisplayInjective | src/economy.rs:232-236 | menu kinds display the same iff they are equal |
| Economy.AllMenusComplete | src/economy.rs:238-250 | `all_menus` lists all nine kinds, each once |
| Economy.AllMenus | src/economy.rs:238-250 | `all_menus`: the nine kinds in the switcher's order, as `Economy.AllMenusComplete` states |
| Economy.SwitcherPicks | src/economy.rs:79-80 | choosing a menu's title in the router gives that menu |
| Economy.Edited | src/economy.rs:71-75 | with no species selected the species menu is edited without asking the switcher, otherwise the menu whose title was chosen |
| Economy.Seed | src/economy.rs:134-145 | the counter starts with Planks, Fabric and Bricks at the number of selected species, and nothing else |
| Economy.EconomyLines | src/economy.rs:175-206 | the report loop emits the economy report body and the closing divider |
| Economy.SeedFits | src/economy.rs:134-158 | the seeded needs hold the number of species and no species lists them |
| Economy.PairShared | src/economy.rs:177 | a pair passes the count-2 filter iff its need is a seeded building material with at least two species, or is shared by two species |
| Economy.SharedReported | src/economy.rs:146-177 | every need of a pair with count at least 2 is one the report should list |
| Economy.ReportedShared | src/economy.rs:146-177 | every need the report should list has a pair with count at least 2 |
| Economy.RankedShared | src/economy.rs:146-177 | the pairs with count at least 2 hold exactly the needs the report should list |
| Economy.ReportNeeds | src/economy.rs:130-207 | the report lists the shared pairs' needs in report order: the building materials once two species are selected, plus every need two species share, and nothing else |
| Economy.ListedInOrder | src/economy.rs:175-206 | the report over any pairs lists the needs of those with count at least 2, in order |
| Economy.BodyHeaders | src/economy.rs:175-184 | header counts are strictly descending, and x has a header iff x is at least 2 and is shared by x species or is the number of species |
| Economy.ReportHeaders | src/economy.rs:130-207 | in the whole report, header counts are strictly descending and are exactly the counts at least 2 that some need shares or that equal the number of species |
| Economy.BodyGroups | src/economy.rs:175-206 | over ranked pairs: every listed need has count at least 2 and sits under its count's header; every header precedes a divider and a need of its count |
| Economy.ReportGroups | src/economy.rs:130-207 | every need the report lists has count at least 2 (its seed plus the species listing it) and sits under the "Needed by count/total" header of that count, with no other header between; each header is followed by a divider and a need of its count |
| Economy.FewPairsShared | src/economy.rs:134-177 | with fewer than two species no pair reaches count 2 |
| Economy.FewSpeciesReport | src/economy.rs:130-207 | with fewer than two species the report is just the closing divider |
| Economy.WoodPreselected | src/economy.rs:63 | after `new`, the fuel menu's only selection is Wood |
| Economy.Economy.constructor | src/economy.rs:34-66 | all nine menus with the source's titles (the fuel title as written) over their catalogue lists; all unticked except fuel, where exactly Wood is checked |
| Economy.Economy.PrintNeeds | src/economy.rs:130-207 | seeding, counting, sorting and the report loop produce the economy report, painted against the selected facets |
| Economy.Economy.Edit | src/economy.rs:79-128 | the chosen menu's row becomes the string selection of the answer; every other row is unchanged |
| Economy.Economy.PlanStep | src/economy.rs:68-92 | one round of `plan`: renders the report of the current state, then edits the species menu if none is selected, else the routed menu; all else unchanged |
| Economy.Economy.GoodFacet | src/economy.rs:163-173 | a good's display is a facet iff the good is selected in one of the seven goods menus |
| Economy.Economy.ServiceFacet | src/economy.rs:163-173 | a service's display is a facet iff the service is selected |
| Economy.Economy.SelectedFacets | src/economy.rs:163-173 | `selected_facets`: the selection strings of the services and seven goods menus, as `Economy.Economy.GoodFacet` and `Economy.Economy.ServiceFacet` state |
| Economy.Economy.NeedHighlight | src/economy.rs:210-217 | a need is painted selected iff its service, or the good it wraps, is selected; species never count |
| Economy.Economy.SlotHighlight | src/economy.rs:187-200 | on a recipe line each alternative is painted selected iff that good is checked in one of the goods menus, otherwise unselected |

## Left out

- The `inquire` prompts behind both `interact` methods (src/menu.rs:21-34, 123-142) are not modelled. The answer a prompt returns is a parameter of the update that follows it: `StringlySelect` of the confirmed strings, or `Choose` of the picked string.
- Economy.Economy.PlanStep: models one round of the unbounded `plan` recursion (src/economy.rs:68-77). The recursion and the propagation of an `InquireError` are left out, because both come from the terminal prompt.
- `clear_screen`, src/main.rs and src/screen.rs are left out: they are terminal I/O, exit codes and error messages.
- Report.Paint: the crossterm colour codes of `colorize` are not modelled. Each name carries a selected or unselected highlight instead, and `println!` output is a sequence of structured lines. The divider's dashes and the " > " prefixes are layout, kept only as the line kind and depth.
- Text.TitleizeIdentifier: `titleize` and `pascalize` use the `convert_case` library. The model is a character-level word splitter over ASCII letters, spaces, underscores and hyphens, with a new word at each lower-to-upper change. The library's digit and acronym boundaries are not modelled; no name in the catalogue uses them.
- src/recipe.rs declares only the `Recipe` trait; its recipe functions are modelled per datatype. Its `Resource`-versus-`Good` return type clash does not affect behaviour.
- The constructor helpers `oil()` to `copper_ore()`, `education()` to `brawling()` and the like are the datatype constructors applied to one variant, so they have no members of their own.
- serde and `Debug` derives are left out: they do not affect behaviour.
- PlannedEconomy.PlannedEconomy.CountsFit: the `i8` counter of the planned economy is modelled as `nat`. The lemma proves no count exceeds 5, so the wrap-around the source could hit never occurs.
- Tally.SortByCount: the in-place `sort_by` (src/economy.rs:161, src/planned_economy.rs:48) is modelled as a pure stable insertion sort on a sequence. The model keeps its result, a stable sort by descending count, but not the update in place or the standard library's sorting algorithm.
