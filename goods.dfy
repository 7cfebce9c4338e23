/**
 * The goods catalogue: seven closed categories of goods, the sum type that
 * wraps them, the recipe of every good and the catalogue lists.
 *
 * A recipe is a sequence of slots; every slot must be filled and any one of
 * a slot's alternatives fills it. A good with an empty recipe is raw.
 *
 * The repository keeps two copies of this table, `Resource` in
 * src/resource.rs and `Good` in src/goods.rs, identical entry for entry;
 * both are modelled by the single datatype `Good` below.
 */
module Goods {
  import Text
  import Lists

  datatype Fuel = Oil | Coal | SeaMarrow | Wood

  datatype CraftingResource =
    | Pottery | Waterskins | Barrels | DrizzleWater | StormWater | ClearanceWater
    | Resin | Leather | Algae | PlantFiber | Scales | Reed | Herbs | Flour | Grain
    | Dye | CopperBars | CrystallizedDew | Stones | Clay | Salt | CopperOre

  datatype BuildingMaterial = Planks | Fabric | Bricks

  datatype ConsumableItem = Scrolls | Incense | TrainingGear | Wine | Ale | Tea

  datatype SimpleFood = Mushrooms | Roots | Vegetables | Fish | Meat | Eggs | Insects | Berries

  datatype Clothing = Coats | Boots

  datatype ComplexFood = Porridge | Biscuits | Pie | PickledGoods | Jerky | Paste | Skewers

  datatype Good =
    | Fuel(fuel: Fuel)
    | CraftingResource(craftingResource: CraftingResource)
    | BuildingMaterial(buildingMaterial: BuildingMaterial)
    | ConsumableItem(consumableItem: ConsumableItem)
    | SimpleFood(simpleFood: SimpleFood)
    | ComplexFood(complexFood: ComplexFood)
    | Clothing(clothing: Clothing)

  type Slot = seq<Good>
  type Slots = seq<Slot>

  // ---------------------------------------------------------------- names

  /*
   * The variant name of every category value, given as its list of words:
   * `Text.Identifier` writes them together (the `Debug` text, "SeaMarrow")
   * and `Text.Titleize` of that separates them again ("Sea Marrow").
   */

  function FuelWords(f: Fuel): seq<string> {
    match f
    case Oil => ["Oil"]
    case Coal => ["Coal"]
    case SeaMarrow => ["Sea", "Marrow"]
    case Wood => ["Wood"]
  }

  function CraftingResourceWords(c: CraftingResource): seq<string> {
    match c
    case Pottery => ["Pottery"]
    case Waterskins => ["Waterskins"]
    case Barrels => ["Barrels"]
    case DrizzleWater => ["Drizzle", "Water"]
    case StormWater => ["Storm", "Water"]
    case ClearanceWater => ["Clearance", "Water"]
    case Resin => ["Resin"]
    case Leather => ["Leather"]
    case Algae => ["Algae"]
    case PlantFiber => ["Plant", "Fiber"]
    case Scales => ["Scales"]
    case Reed => ["Reed"]
    case Herbs => ["Herbs"]
    case Flour => ["Flour"]
    case Grain => ["Grain"]
    case Dye => ["Dye"]
    case CopperBars => ["Copper", "Bars"]
    case CrystallizedDew => ["Crystallized", "Dew"]
    case Stones => ["Stones"]
    case Clay => ["Clay"]
    case Salt => ["Salt"]
    case CopperOre => ["Copper", "Ore"]
  }

  function BuildingMaterialWords(b: BuildingMaterial): seq<string> {
    match b
    case Planks => ["Planks"]
    case Fabric => ["Fabric"]
    case Bricks => ["Bricks"]
  }

  function ConsumableItemWords(c: ConsumableItem): seq<string> {
    match c
    case Scrolls => ["Scrolls"]
    case Incense => ["Incense"]
    case TrainingGear => ["Training", "Gear"]
    case Wine => ["Wine"]
    case Ale => ["Ale"]
    case Tea => ["Tea"]
  }

  function SimpleFoodWords(s: SimpleFood): seq<string> {
    match s
    case Mushrooms => ["Mushrooms"]
    case Roots => ["Roots"]
    case Vegetables => ["Vegetables"]
    case Fish => ["Fish"]
    case Meat => ["Meat"]
    case Eggs => ["Eggs"]
    case Insects => ["Insects"]
    case Berries => ["Berries"]
  }

  function ClothingWords(c: Clothing): seq<string> {
    match c
    case Coats => ["Coats"]
    case Boots => ["Boots"]
  }

  function ComplexFoodWords(c: ComplexFood): seq<string> {
    match c
    case Porridge => ["Porridge"]
    case Biscuits => ["Biscuits"]
    case Pie => ["Pie"]
    case PickledGoods => ["Pickled", "Goods"]
    case Jerky => ["Jerky"]
    case Paste => ["Paste"]
    case Skewers => ["Skewers"]
  }

  /** The words of the wrapped category value's variant name. */
  function Words(g: Good): seq<string> {
    match g
    case Fuel(f) => FuelWords(f)
    case CraftingResource(c) => CraftingResourceWords(c)
    case BuildingMaterial(b) => BuildingMaterialWords(b)
    case ConsumableItem(c) => ConsumableItemWords(c)
    case SimpleFood(s) => SimpleFoodWords(s)
    case ComplexFood(c) => ComplexFoodWords(c)
    case Clothing(c) => ClothingWords(c)
  }

  /** Every variant name is PascalCase: capitalised words written together. */
  lemma WordsAreWords(g: Good)
    ensures Text.AllWords(Words(g))
  {
    match g
    case Fuel(f) => FuelWordsAreWords(f);
    case CraftingResource(c) => CraftingResourceWordsAreWords(c);
    case BuildingMaterial(b) => BuildingMaterialWordsAreWords(b);
    case ConsumableItem(c) => ConsumableItemWordsAreWords(c);
    case SimpleFood(s) => SimpleFoodWordsAreWords(s);
    case ComplexFood(c) => ComplexFoodWordsAreWords(c);
    case Clothing(c) => ClothingWordsAreWords(c);
  }

  lemma FuelWordsAreWords(f: Fuel)
    ensures Text.AllWords(FuelWords(f))
  {
  }

  lemma CraftingResourceWordsAreWords(c: CraftingResource)
    ensures Text.AllWords(CraftingResourceWords(c))
  {
    CraftingResourceWordsAreWords1();
    CraftingResourceWordsAreWords2();
    CraftingResourceWordsAreWords3();
    CraftingResourceWordsAreWords4();
  }

  lemma CraftingResourceWordsAreWords1()
    ensures Text.AllWords(CraftingResourceWords(Pottery))
    ensures Text.AllWords(CraftingResourceWords(Waterskins))
    ensures Text.AllWords(CraftingResourceWords(Barrels))
    ensures Text.AllWords(CraftingResourceWords(DrizzleWater))
    ensures Text.AllWords(CraftingResourceWords(StormWater))
    ensures Text.AllWords(CraftingResourceWords(ClearanceWater))
  {
  }

  lemma CraftingResourceWordsAreWords2()
    ensures Text.AllWords(CraftingResourceWords(Resin))
    ensures Text.AllWords(CraftingResourceWords(Leather))
    ensures Text.AllWords(CraftingResourceWords(Algae))
    ensures Text.AllWords(CraftingResourceWords(PlantFiber))
    ensures Text.AllWords(CraftingResourceWords(Scales))
    ensures Text.AllWords(CraftingResourceWords(Reed))
  {
  }

  lemma CraftingResourceWordsAreWords3()
    ensures Text.AllWords(CraftingResourceWords(Herbs))
    ensures Text.AllWords(CraftingResourceWords(Flour))
    ensures Text.AllWords(CraftingResourceWords(Grain))
    ensures Text.AllWords(CraftingResourceWords(Dye))
    ensures Text.AllWords(CraftingResourceWords(CopperBars))
  {
  }

  lemma CraftingResourceWordsAreWords4()
    ensures Text.AllWords(CraftingResourceWords(CrystallizedDew))
    ensures Text.AllWords(CraftingResourceWords(Stones))
    ensures Text.AllWords(CraftingResourceWords(Clay))
    ensures Text.AllWords(CraftingResourceWords(Salt))
    ensures Text.AllWords(CraftingResourceWords(CopperOre))
  {
  }

  lemma BuildingMaterialWordsAreWords(b: BuildingMaterial)
    ensures Text.AllWords(BuildingMaterialWords(b))
  {
  }

  lemma ConsumableItemWordsAreWords(c: ConsumableItem)
    ensures Text.AllWords(ConsumableItemWords(c))
  {
  }

  lemma SimpleFoodWordsAreWords(s: SimpleFood)
    ensures Text.AllWords(SimpleFoodWords(s))
  {
  }

  lemma ClothingWordsAreWords(c: Clothing)
    ensures Text.AllWords(ClothingWords(c))
  {
  }

  lemma ComplexFoodWordsAreWords(c: ComplexFood)
    ensures Text.AllWords(ComplexFoodWords(c))
  {
  }

  /** Different goods have different variant names. */
  lemma WordsInjective(a: Good, b: Good)
    ensures Words(a) == Words(b) <==> a == b
  {
    match a
    case Fuel(f) => FuelWordsInjective(f, b);
    case CraftingResource(c) => CraftingResourceWordsInjective(c, b);
    case BuildingMaterial(m) => BuildingMaterialWordsInjective(m, b);
    case ConsumableItem(c) => ConsumableItemWordsInjective(c, b);
    case SimpleFood(s) => SimpleFoodWordsInjective(s, b);
    case ComplexFood(c) => ComplexFoodWordsInjective(c, b);
    case Clothing(c) => ClothingWordsInjective(c, b);
  }

  lemma FuelWordsInjective(f: Fuel, b: Good)
    ensures Words(Fuel(f)) == Words(b) <==> Fuel(f) == b
  {
  }

  lemma CraftingResourceWordsInjective(c: CraftingResource, b: Good)
    ensures Words(CraftingResource(c)) == Words(b) <==> CraftingResource(c) == b
  {
  }

  lemma BuildingMaterialWordsInjective(m: BuildingMaterial, b: Good)
    ensures Words(BuildingMaterial(m)) == Words(b) <==> BuildingMaterial(m) == b
  {
  }

  lemma ConsumableItemWordsInjective(c: ConsumableItem, b: Good)
    ensures Words(ConsumableItem(c)) == Words(b) <==> ConsumableItem(c) == b
  {
  }

  lemma SimpleFoodWordsInjective(s: SimpleFood, b: Good)
    ensures Words(SimpleFood(s)) == Words(b) <==> SimpleFood(s) == b
  {
  }

  lemma ComplexFoodWordsInjective(c: ComplexFood, b: Good)
    ensures Words(ComplexFood(c)) == Words(b) <==> ComplexFood(c) == b
  {
  }

  lemma ClothingWordsInjective(c: Clothing, b: Good)
    ensures Words(Clothing(c)) == Words(b) <==> Clothing(c) == b
  {
  }

  /** The `Debug` text of the wrapped category value: its variant name. */
  function Name(g: Good): string {
    Text.Identifier(Words(g))
  }

  /**
   * The display string: `titleize` of the wrapped category value. Both
   * `Resource`'s forwarding `Display` and `Good`'s direct `titleize` produce it.
   */
  function Display(g: Good): (r: string)
    ensures r == Text.Title(Words(g))
  {
    WordsAreWords(g);
    Text.TitleizeIdentifier(Words(g));
    Text.Titleize(Name(g))
  }

  /** Display strings are pairwise distinct, and `pascalize` recovers the variant name. */
  lemma DisplayInjective(a: Good, b: Good)
    ensures Text.Pascalize(Display(a)) == Name(a)
    ensures Display(a) == Display(b) <==> a == b
  {
    WordsAreWords(a);
    WordsAreWords(b);
    Text.PascalizeTitleize(Words(a));
    Text.TitleInjective(Words(a), Words(b));
    WordsInjective(a, b);
  }

  /** `Stones` displays as "Stones" (its constructor function is called `stone`). */
  lemma StonesDisplay()
    ensures Display(CraftingResource(Stones)) == "Stones"
  {
  }

  // -------------------------------------------------------------- recipes

  function FuelRecipe(f: Fuel): (r: Slots)
    ensures WellFormedRecipe(Fuel(f), r)
  {
    match f
    case Oil => [[CraftingResource(Grain), SimpleFood(Meat), SimpleFood(Vegetables), CraftingResource(PlantFiber), SimpleFood(Fish)]]
    case Coal => [[Fuel(Wood), CraftingResource(Algae)]]
    case SeaMarrow => []
    case Wood => []
  }

  function CraftingResourceRecipe(c: CraftingResource): (r: Slots)
    ensures WellFormedRecipe(CraftingResource(c), r)
  {
    match c
    case Pottery => [[CraftingResource(Clay)], [Fuel(Wood), Fuel(Oil), Fuel(Coal), Fuel(SeaMarrow)]]
    case Waterskins => [[CraftingResource(Leather), CraftingResource(Scales)], [Fuel(Oil), SimpleFood(Meat), CraftingResource(Salt)]]
    case Barrels => [[CraftingResource(CopperBars), CraftingResource(CrystallizedDew)], [BuildingMaterial(Planks)]]
    case Leather => [[CraftingResource(Algae), CraftingResource(Reed), CraftingResource(Grain), SimpleFood(Vegetables)]]
    case Herbs => [[CraftingResource(DrizzleWater)]]
    case Flour => [[CraftingResource(Grain), SimpleFood(Mushrooms), SimpleFood(Roots), CraftingResource(Algae)]]
    case Dye => [[SimpleFood(Insects), SimpleFood(Berries), CraftingResource(CopperOre), CraftingResource(Scales), Fuel(Coal)]]
    case CopperBars =>
      [ [CraftingResource(CopperOre), CraftingResource(Scales)],
        [Fuel(Wood), Fuel(Oil), Fuel(Coal), Fuel(SeaMarrow)] ]
    case CrystallizedDew =>
      [ [CraftingResource(Herbs), SimpleFood(Insects), CraftingResource(Resin), SimpleFood(Vegetables), CraftingResource(Algae)],
        [CraftingResource(Stones), CraftingResource(Clay), CraftingResource(Salt)],
        [CraftingResource(StormWater), CraftingResource(DrizzleWater), CraftingResource(ClearanceWater)] ]
    case Clay => [[CraftingResource(ClearanceWater)]]
    case Reed => [[CraftingResource(ClearanceWater)]]
    case Resin => [[CraftingResource(ClearanceWater)]]
    case DrizzleWater => []
    case StormWater => []
    case ClearanceWater => []
    case Algae => []
    case PlantFiber => []
    case Scales => []
    case Grain => []
    case Stones => []
    case Salt => []
    case CopperOre => []
  }

  function BuildingMaterialRecipe(b: BuildingMaterial): (r: Slots)
    ensures WellFormedRecipe(BuildingMaterial(b), r)
  {
    match b
    case Planks => [[Fuel(Wood)]]
    case Fabric => [[CraftingResource(PlantFiber), CraftingResource(Reed), CraftingResource(Algae)]]
    case Bricks => [[CraftingResource(Clay), CraftingResource(Stones)]]
  }

  function ConsumableItemRecipe(c: ConsumableItem): (r: Slots)
    ensures WellFormedRecipe(ConsumableItem(c), r)
  {
    match c
    case Scrolls =>
      [ [CraftingResource(Leather), CraftingResource(PlantFiber), Fuel(Wood)],
        [CraftingResource(Dye), ConsumableItem(Wine)] ]
    case Incense =>
      [ [CraftingResource(Herbs), SimpleFood(Roots), SimpleFood(Insects), CraftingResource(Scales), CraftingResource(Salt), CraftingResource(Resin)],
        [Fuel(Wood), Fuel(Oil), Fuel(Coal), Fuel(SeaMarrow)] ]
    case TrainingGear =>
      [ [CraftingResource(Stones), CraftingResource(CopperBars), CraftingResource(CrystallizedDew)],
        [BuildingMaterial(Planks), CraftingResource(Reed), CraftingResource(Leather)] ]
    case Wine =>
      [ [SimpleFood(Berries), SimpleFood(Mushrooms), CraftingResource(Reed)],
        [CraftingResource(Pottery), CraftingResource(Barrels), CraftingResource(Waterskins)] ]
    case Ale =>
      [ [CraftingResource(Grain), SimpleFood(Roots)],
        [CraftingResource(Pottery), CraftingResource(Barrels), CraftingResource(Waterskins)] ]
    case Tea =>
      [ [CraftingResource(Herbs), CraftingResource(Dye), CraftingResource(Resin), SimpleFood(Mushrooms), SimpleFood(Roots)],
        [CraftingResource(Pottery), CraftingResource(Barrels), CraftingResource(Waterskins)] ]
  }

  function SimpleFoodRecipe(s: SimpleFood): (r: Slots)
    ensures WellFormedRecipe(SimpleFood(s), r)
  {
    match s
    case Mushrooms => [[CraftingResource(DrizzleWater)]]
    case Roots => []
    case Vegetables => []
    case Fish => []
    case Insects => []
    case Berries => []
    case Meat => [[CraftingResource(PlantFiber), CraftingResource(Reed), CraftingResource(Algae), CraftingResource(Grain), SimpleFood(Vegetables)]]
    case Eggs => [[CraftingResource(Grain), SimpleFood(Insects), CraftingResource(Reed), SimpleFood(Berries)]]
  }

  function ClothingRecipe(c: Clothing): (r: Slots)
    ensures WellFormedRecipe(Clothing(c), r)
  {
    match c
    case Coats => [[BuildingMaterial(Fabric), CraftingResource(Leather)], [CraftingResource(Dye), CraftingResource(Resin)]]
    case Boots => [[CraftingResource(Leather), CraftingResource(Scales)]]
  }

  function ComplexFoodRecipe(c: ComplexFood): (r: Slots)
    ensures WellFormedRecipe(ComplexFood(c), r)
  {
    match c
    case Porridge =>
      [ [CraftingResource(Grain), SimpleFood(Vegetables), SimpleFood(Mushrooms), CraftingResource(Herbs), SimpleFood(Fish)],
        [CraftingResource(ClearanceWater), CraftingResource(StormWater), CraftingResource(DrizzleWater)] ]
    case Biscuits =>
      [ [CraftingResource(Flour)],
        [CraftingResource(Herbs), SimpleFood(Berries), SimpleFood(Roots), SimpleFood(Eggs), CraftingResource(Salt)] ]
    case Pie =>
      [ [CraftingResource(Flour)],
        [CraftingResource(Herbs), SimpleFood(Meat), SimpleFood(Insects), SimpleFood(Berries), SimpleFood(Fish)] ]
    case PickledGoods =>
      [ [SimpleFood(Vegetables), SimpleFood(Mushrooms), SimpleFood(Roots), SimpleFood(Berries), SimpleFood(Eggs)],
        [CraftingResource(Pottery), CraftingResource(Barrels), CraftingResource(Waterskins)] ]
    case Jerky =>
      [ [SimpleFood(Insects), SimpleFood(Meat)],
        [CraftingResource(Salt), Fuel(Wood), Fuel(SeaMarrow), Fuel(Coal), Fuel(Oil)] ]
    case Paste => [[CraftingResource(Dye), CraftingResource(Salt)], [SimpleFood(Eggs), SimpleFood(Fish), SimpleFood(Meat)]]
    case Skewers =>
      [ [SimpleFood(Insects), SimpleFood(Meat), SimpleFood(Mushrooms), SimpleFood(Fish), ComplexFood(Jerky)],
        [SimpleFood(Vegetables), SimpleFood(Roots), SimpleFood(Berries), SimpleFood(Eggs)] ]
  }

  /**
   * How far a good is from raw material: raw goods are tier 0, and every
   * ingredient of a good has a strictly lower tier than the good itself
   * (`RecipeDescends`).
   */
  function Tier(g: Good): nat {
    match g
    case Fuel(f) => FuelTier(f)
    case CraftingResource(c) => CraftingResourceTier(c)
    case BuildingMaterial(b) => BuildingMaterialTier(b)
    case ConsumableItem(c) => ConsumableItemTier(c)
    case SimpleFood(s) => SimpleFoodTier(s)
    case Clothing(c) => 3
    case ComplexFood(c) => ComplexFoodTier(c)
  }
  function FuelTier(f: Fuel): nat { match f case Oil => 3 case Coal => 1 case _ => 0 }
  function CraftingResourceTier(c: CraftingResource): nat {
      match c
      case Pottery => 4
      case Waterskins => 4
      case Barrels => 5
      case Leather => 2
      case Herbs => 1
      case Flour => 2
      case Dye => 2
      case CopperBars => 4
      case CrystallizedDew => 2
      case Clay => 1
      case Reed => 1
      case Resin => 1
      case _ => 0
  }
  function BuildingMaterialTier(b: BuildingMaterial): nat {
      match b
      case Planks => 1
      case Fabric => 2
      case Bricks => 2
  }
  function ConsumableItemTier(c: ConsumableItem): nat {
      match c
      case Scrolls => 7
      case Incense => 4
      case TrainingGear => 5
      case Wine => 6
      case Ale => 6
      case Tea => 6
  }
  function SimpleFoodTier(s: SimpleFood): nat {
      match s
      case Mushrooms => 1
      case Meat => 2
      case Eggs => 2
      case _ => 0
  }
  function ComplexFoodTier(c: ComplexFood): nat {
      match c
      case Porridge => 2
      case Biscuits => 3
      case Pie => 3
      case PickledGoods => 6
      case Jerky => 4
      case Paste => 3
      case Skewers => 5
  }

  // ------------------------------------------------- declaration order

  /*
   * The position of each variant in its enum declaration: the order a
   * derived `Ord` compares by, and the order of the category lists.
   */

  function FuelRank(f: Fuel): nat {
    match f
    case Oil => 0
    case Coal => 1
    case SeaMarrow => 2
    case Wood => 3
  }

  function CraftingResourceRank(c: CraftingResource): nat {
    match c
    case Pottery => 0
    case Waterskins => 1
    case Barrels => 2
    case DrizzleWater => 3
    case StormWater => 4
    case ClearanceWater => 5
    case Resin => 6
    case Leather => 7
    case Algae => 8
    case PlantFiber => 9
    case Scales => 10
    case Reed => 11
    case Herbs => 12
    case Flour => 13
    case Grain => 14
    case Dye => 15
    case CopperBars => 16
    case CrystallizedDew => 17
    case Stones => 18
    case Clay => 19
    case Salt => 20
    case CopperOre => 21
  }

  function BuildingMaterialRank(b: BuildingMaterial): nat {
    match b
    case Planks => 0
    case Fabric => 1
    case Bricks => 2
  }

  function ConsumableItemRank(c: ConsumableItem): nat {
    match c
    case Scrolls => 0
    case Incense => 1
    case TrainingGear => 2
    case Wine => 3
    case Ale => 4
    case Tea => 5
  }

  function SimpleFoodRank(s: SimpleFood): nat {
    match s
    case Mushrooms => 0
    case Roots => 1
    case Vegetables => 2
    case Fish => 3
    case Meat => 4
    case Eggs => 5
    case Insects => 6
    case Berries => 7
  }

  function ClothingRank(c: Clothing): nat {
    match c
    case Coats => 0
    case Boots => 1
  }

  function ComplexFoodRank(c: ComplexFood): nat {
    match c
    case Porridge => 0
    case Biscuits => 1
    case Pie => 2
    case PickledGoods => 3
    case Jerky => 4
    case Paste => 5
    case Skewers => 6
  }

  /** The position of a good inside its own category. */
  function Rank(g: Good): nat {
    match g
    case Fuel(f) => FuelRank(f)
    case CraftingResource(c) => CraftingResourceRank(c)
    case BuildingMaterial(b) => BuildingMaterialRank(b)
    case ConsumableItem(c) => ConsumableItemRank(c)
    case SimpleFood(s) => SimpleFoodRank(s)
    case ComplexFood(c) => ComplexFoodRank(c)
    case Clothing(c) => ClothingRank(c)
  }

  /**
   * The shape every recipe table has: every slot offers at least one
   * alternative, there are at most three slots, and the recipe is empty
   * exactly for the goods of tier 0.
   */
  predicate WellFormedRecipe(g: Good, r: Slots) {
    && (forall k :: 0 <= k < |r| ==> |r[k]| >= 1)
    && |r| <= 3
    && (r == [] <==> Tier(g) == 0)
  }

  /** `recipe`: dispatches unchanged to the wrapped category's table. */
  function Recipe(g: Good): (r: Slots)
    ensures WellFormedRecipe(g, r)
  {
    match g
    case Fuel(f) => FuelRecipe(f)
    case CraftingResource(c) => CraftingResourceRecipe(c)
    case BuildingMaterial(b) => BuildingMaterialRecipe(b)
    case ConsumableItem(c) => ConsumableItemRecipe(c)
    case SimpleFood(s) => SimpleFoodRecipe(s)
    case ComplexFood(c) => ComplexFoodRecipe(c)
    case Clothing(c) => ClothingRecipe(c)
  }

  /** Every alternative of every slot of `r` has a tier below `t`. */
  predicate IngredientsBelow(r: Slots, t: nat) {
    forall k, j :: 0 <= k < |r| && 0 <= j < |r[k]| ==> Tier(r[k][j]) < t
  }

  /** Every ingredient of a good has a strictly lower tier than the good. */
  lemma RecipeDescends(g: Good)
    ensures IngredientsBelow(Recipe(g), Tier(g))
  {
    match g
    case Fuel(f) => FuelRecipeDescends(f);
    case CraftingResource(c) => CraftingResourceRecipeDescends(c);
    case BuildingMaterial(m) => BuildingMaterialRecipeDescends(m);
    case ConsumableItem(c) => ConsumableItemRecipeDescends(c);
    case SimpleFood(s) => SimpleFoodRecipeDescends(s);
    case ComplexFood(c) => ComplexFoodRecipeDescends(c);
    case Clothing(c) => ClothingRecipeDescends(c);
  }

  lemma FuelRecipeDescends(f: Fuel)
    ensures IngredientsBelow(FuelRecipe(f), FuelTier(f))
  {
  }

  lemma CraftingResourceRecipeDescends(c: CraftingResource)
    ensures IngredientsBelow(CraftingResourceRecipe(c), CraftingResourceTier(c))
  {
  }

  lemma BuildingMaterialRecipeDescends(m: BuildingMaterial)
    ensures IngredientsBelow(BuildingMaterialRecipe(m), BuildingMaterialTier(m))
  {
  }

  lemma ConsumableItemRecipeDescends(c: ConsumableItem)
    ensures IngredientsBelow(ConsumableItemRecipe(c), ConsumableItemTier(c))
  {
  }

  lemma SimpleFoodRecipeDescends(s: SimpleFood)
    ensures IngredientsBelow(SimpleFoodRecipe(s), SimpleFoodTier(s))
  {
  }

  lemma ComplexFoodRecipeDescends(c: ComplexFood)
    ensures IngredientsBelow(ComplexFoodRecipe(c), ComplexFoodTier(c))
  {
  }

  lemma ClothingRecipeDescends(c: Clothing)
    ensures IngredientsBelow(ClothingRecipe(c), 3)
  {
  }

  /** `a` is listed in some slot of `b`'s recipe. */
  predicate IngredientOf(a: Good, b: Good) {
    exists k :: 0 <= k < |Recipe(b)| && a in Recipe(b)[k]
  }

  /** A chain of goods, each an ingredient of the one before it. */
  predicate IngredientChain(path: seq<Good>) {
    forall i :: 0 <= i < |path| - 1 ==> IngredientOf(path[i + 1], path[i])
  }

  lemma {:induction false} ChainDescends(path: seq<Good>)
    requires |path| >= 2 && IngredientChain(path)
    ensures Tier(path[|path| - 1]) < Tier(path[0])
    decreases |path|
  {
    assert IngredientOf(path[1], path[0]);
    RecipeDescends(path[0]);
    if |path| > 2 {
      assert IngredientChain(path[1..]) by {
        forall i | 0 <= i < |path[1..]| - 1 ensures IngredientOf(path[1..][i + 1], path[1..][i]) {
          assert IngredientOf(path[i + 2], path[i + 1]);
        }
      }
      ChainDescends(path[1..]);
    }
  }

  /** No good is, directly or through any chain of ingredients, an ingredient of itself. */
  lemma RecipesAcyclic(path: seq<Good>)
    requires |path| >= 2 && IngredientChain(path)
    ensures path[|path| - 1] != path[0]
  {
    ChainDescends(path);
  }

  /** Every chain of ingredients bottoms out: its length is bounded by the tier it starts from. */
  lemma {:induction false} ChainsAreShort(path: seq<Good>)
    requires |path| >= 1 && IngredientChain(path)
    ensures |path| <= Tier(path[0]) + 1
    decreases |path|
  {
    if |path| >= 2 {
      assert IngredientChain(path[1..]) by {
        forall i | 0 <= i < |path[1..]| - 1 ensures IngredientOf(path[1..][i + 1], path[1..][i]) {
          assert IngredientOf(path[i + 2], path[i + 1]);
        }
      }
      ChainsAreShort(path[1..]);
      assert IngredientOf(path[1], path[0]);
      RecipeDescends(path[0]);
    }
  }

  /** Skewers -> Jerky -> Meat -> Reed -> ClearanceWater, the longest chain below Skewers. */
  lemma SkewersChain()
    ensures IngredientChain([ComplexFood(Skewers), ComplexFood(Jerky), SimpleFood(Meat), CraftingResource(Reed), CraftingResource(ClearanceWater)])
    ensures Recipe(CraftingResource(ClearanceWater)) == []
  {
    var path := [ComplexFood(Skewers), ComplexFood(Jerky), SimpleFood(Meat), CraftingResource(Reed), CraftingResource(ClearanceWater)];
    assert Recipe(path[0])[0][4] == path[1];
    assert Recipe(path[1])[0][1] == path[2];
    assert Recipe(path[2])[0][1] == path[3];
    assert Recipe(path[3])[0][0] == path[4];
    forall i | 0 <= i < |path| - 1 ensures IngredientOf(path[i + 1], path[i]) {
      if i == 0 { assert Recipe(path[0])[0] in Recipe(path[0]); }
      else if i == 1 { assert Recipe(path[1])[0] in Recipe(path[1]); }
      else if i == 2 { assert Recipe(path[2])[0] in Recipe(path[2]); }
      else { assert Recipe(path[3])[0] in Recipe(path[3]); }
    }
  }

  /** The goods whose recipe is empty: two fuels, ten crafting resources and five simple foods. */
  function RawGoods(): seq<Good> {
    [ Fuel(SeaMarrow), Fuel(Wood),
      CraftingResource(DrizzleWater), CraftingResource(StormWater), CraftingResource(ClearanceWater),
      CraftingResource(Algae), CraftingResource(PlantFiber), CraftingResource(Scales), CraftingResource(Grain),
      CraftingResource(Stones), CraftingResource(Salt), CraftingResource(CopperOre),
      SimpleFood(Roots), SimpleFood(Vegetables), SimpleFood(Fish), SimpleFood(Insects), SimpleFood(Berries) ]
  }

  /** A good has an empty recipe exactly when it is one of the raw goods. */
  lemma RawGoodsHaveEmptyRecipes(g: Good)
    ensures Recipe(g) == [] <==> g in RawGoods()
  {
    match g
    case Fuel(f) =>
    case CraftingResource(c) => CraftingResourceRaw(c);
    case BuildingMaterial(_) =>
    case ConsumableItem(_) =>
    case SimpleFood(s) =>
    case ComplexFood(_) =>
    case Clothing(_) =>
  }

  lemma CraftingResourceRaw(c: CraftingResource)
    ensures CraftingResourceRecipe(c) == [] <==> CraftingResource(c) in RawGoods()
  {
    if CraftingResourceTier(c) == 0 {
      RawCraftingResourcesListed(c);
    } else {
      CookedCraftingResourcesUnlisted(c);
    }
  }

  lemma RawCraftingResourcesListed(c: CraftingResource)
    requires CraftingResourceTier(c) == 0
    ensures CraftingResource(c) in RawGoods()
  {
  }

  lemma CookedCraftingResourcesUnlisted(c: CraftingResource)
    requires CraftingResourceTier(c) > 0
    ensures CraftingResource(c) !in RawGoods()
  {
  }

  /** CrystallizedDew is the only good whose recipe has three slots; every other recipe has at most two. */
  lemma OnlyCrystallizedDewHasThreeSlots(g: Good)
    ensures |Recipe(g)| == 3 <==> g == CraftingResource(CrystallizedDew)
  {
    match g
    case Fuel(f) =>
    case CraftingResource(c) =>
    case BuildingMaterial(_) =>
    case ConsumableItem(_) =>
    case SimpleFood(s) =>
    case ComplexFood(_) =>
    case Clothing(_) =>
  }

  lemma PotteryAndClay()
    ensures Recipe(CraftingResource(Pottery)) == [[CraftingResource(Clay)], [Fuel(Wood), Fuel(Oil), Fuel(Coal), Fuel(SeaMarrow)]]
    ensures Recipe(CraftingResource(Clay)) == [[CraftingResource(ClearanceWater)]]
  {
  }

  /** Biscuits and Pie start with the single-alternative slot [Flour]; Flour's recipe is one slot of four alternatives. */
  lemma BiscuitsAndPieNeedFlour()
    ensures Recipe(ComplexFood(Biscuits))[0] == [CraftingResource(Flour)]
    ensures Recipe(ComplexFood(Pie))[0] == [CraftingResource(Flour)]
    ensures |Recipe(CraftingResource(Flour))| == 1 && |Recipe(CraftingResource(Flour))[0]| == 4
  {
  }

  // ---------------------------------------------------------- catalogue

  function AllFuel(): (r: seq<Good>)
    ensures forall i :: 0 <= i < |r| ==> r[i].Fuel? && Rank(r[i]) == i
  {
    [Fuel(Oil), Fuel(Coal), Fuel(SeaMarrow), Fuel(Wood)]
  }

  function AllCraftingResources(): (r: seq<Good>)
    ensures forall i :: 0 <= i < |r| ==> r[i].CraftingResource? && Rank(r[i]) == i
  {
    [ CraftingResource(Pottery), CraftingResource(Waterskins), CraftingResource(Barrels),
      CraftingResource(DrizzleWater), CraftingResource(StormWater), CraftingResource(ClearanceWater),
      CraftingResource(Resin), CraftingResource(Leather), CraftingResource(Algae),
      CraftingResource(PlantFiber), CraftingResource(Scales), CraftingResource(Reed),
      CraftingResource(Herbs), CraftingResource(Flour), CraftingResource(Grain),
      CraftingResource(Dye), CraftingResource(CopperBars), CraftingResource(CrystallizedDew),
      CraftingResource(Stones), CraftingResource(Clay), CraftingResource(Salt),
      CraftingResource(CopperOre) ]
  }

  function AllBuildingMaterials(): (r: seq<Good>)
    ensures forall i :: 0 <= i < |r| ==> r[i].BuildingMaterial? && Rank(r[i]) == i
  {
    [BuildingMaterial(Planks), BuildingMaterial(Fabric), BuildingMaterial(Bricks)]
  }

  function AllConsumableItems(): (r: seq<Good>)
    ensures forall i :: 0 <= i < |r| ==> r[i].ConsumableItem? && Rank(r[i]) == i
  {
    [ ConsumableItem(Scrolls), ConsumableItem(Incense), ConsumableItem(TrainingGear),
      ConsumableItem(Wine), ConsumableItem(Ale), ConsumableItem(Tea) ]
  }

  function AllSimpleFood(): (r: seq<Good>)
    ensures forall i :: 0 <= i < |r| ==> r[i].SimpleFood? && Rank(r[i]) == i
  {
    [ SimpleFood(Mushrooms), SimpleFood(Roots), SimpleFood(Vegetables), SimpleFood(Fish),
      SimpleFood(Meat), SimpleFood(Eggs), SimpleFood(Insects), SimpleFood(Berries) ]
  }

  function AllClothing(): (r: seq<Good>)
    ensures forall i :: 0 <= i < |r| ==> r[i].Clothing? && Rank(r[i]) == i
  {
    [Clothing(Coats), Clothing(Boots)]
  }

  function AllComplexFood(): (r: seq<Good>)
    ensures forall i :: 0 <= i < |r| ==> r[i].ComplexFood? && Rank(r[i]) == i
  {
    [ ComplexFood(Porridge), ComplexFood(Biscuits), ComplexFood(Pie), ComplexFood(PickledGoods),
      ComplexFood(Jerky), ComplexFood(Paste), ComplexFood(Skewers) ]
  }

  /** `all_goods`: the category lists concatenated in their fixed order. */
  function AllGoods(): seq<Good> {
    AllFuel() + AllCraftingResources() + AllBuildingMaterials() + AllClothing()
      + AllSimpleFood() + AllComplexFood() + AllConsumableItems()
  }

  /** A list of goods of one category, each at its declaration position, has no duplicates. */
  lemma {:induction false} NoDupByRank(s: seq<Good>, offset: int)
    requires forall i :: 0 <= i < |s| ==> Rank(s[i]) == i + offset
    ensures Lists.NoDup(s)
    decreases |s|
  {
    if s != [] {
      forall j | 0 <= j < |s[1..]| ensures s[1..][j] != s[0] {
        assert Rank(s[1..][j]) == j + 1 + offset;
      }
      NoDupByRank(s[1..], offset + 1);
    }
  }

  /** The position of a good's category in `all_goods`. */
  function CategoryIndex(g: Good): nat {
    match g
    case Fuel(_) => 0
    case CraftingResource(_) => 1
    case BuildingMaterial(_) => 2
    case Clothing(_) => 3
    case SimpleFood(_) => 4
    case ComplexFood(_) => 5
    case ConsumableItem(_) => 6
  }

  /** The category lists in the order `all_goods` concatenates them. */
  function CategoryList(category: nat): seq<Good> {
    match category
    case 0 => AllFuel()
    case 1 => AllCraftingResources()
    case 2 => AllBuildingMaterials()
    case 3 => AllClothing()
    case 4 => AllSimpleFood()
    case 5 => AllComplexFood()
    case 6 => AllConsumableItems()
    case _ => []
  }

  /** Each category list holds every good of its category and nothing else. */
  lemma CategoryListMembers(category: nat, g: Good)
    requires category < 7
    ensures g in CategoryList(category) <==> CategoryIndex(g) == category
  {
    match category
    case 0 => FuelListMembers(g);
    case 1 => CraftingResourceListMembers(g);
    case 2 => BuildingMaterialListMembers(g);
    case 3 => ClothingListMembers(g);
    case 4 => SimpleFoodListMembers(g);
    case 5 => ComplexFoodListMembers(g);
    case 6 => ConsumableItemListMembers(g);
  }

  /** Each category list is in declaration order, so it holds every good at most once. */
  lemma CategoryListNoDup(category: nat)
    requires category < 7
    ensures Lists.NoDup(CategoryList(category))
  {
    NoDupByRank(CategoryList(category), 0);
  }

  lemma FuelListMembers(g: Good)
    ensures g in AllFuel() <==> g.Fuel?
  {
    if g.Fuel? {
      match g.fuel
      case Oil =>
      case Coal =>
      case SeaMarrow =>
      case Wood =>
    }
  }

  lemma CraftingResourceListMembers(g: Good)
    ensures g in AllCraftingResources() <==> g.CraftingResource?
  {
    if g.CraftingResource? {
      CraftingResourceListed(g.craftingResource);
    }
  }

  lemma BuildingMaterialListMembers(g: Good)
    ensures g in AllBuildingMaterials() <==> g.BuildingMaterial?
  {
    if g.BuildingMaterial? {
      match g.buildingMaterial
      case Planks =>
      case Fabric =>
      case Bricks =>
    }
  }

  lemma ClothingListMembers(g: Good)
    ensures g in AllClothing() <==> g.Clothing?
  {
    if g.Clothing? {
      match g.clothing
      case Coats =>
      case Boots =>
    }
  }

  lemma SimpleFoodListMembers(g: Good)
    ensures g in AllSimpleFood() <==> g.SimpleFood?
  {
    if g.SimpleFood? {
      match g.simpleFood
      case Mushrooms =>
      case Roots =>
      case Vegetables =>
      case Fish =>
      case Meat =>
      case Eggs =>
      case Insects =>
      case Berries =>
    }
  }

  lemma ComplexFoodListMembers(g: Good)
    ensures g in AllComplexFood() <==> g.ComplexFood?
  {
    if g.ComplexFood? {
      match g.complexFood
      case Porridge =>
      case Biscuits =>
      case Pie =>
      case PickledGoods =>
      case Jerky =>
      case Paste =>
      case Skewers =>
    }
  }

  lemma ConsumableItemListMembers(g: Good)
    ensures g in AllConsumableItems() <==> g.ConsumableItem?
  {
    if g.ConsumableItem? {
      match g.consumableItem
      case Scrolls =>
      case Incense =>
      case TrainingGear =>
      case Wine =>
      case Ale =>
      case Tea =>
    }
  }

  lemma CraftingResourceListed(c: CraftingResource)
    ensures CraftingResource(c) in AllCraftingResources()
  {
  }

  /** The first `n` category lists of `all_goods`, concatenated. */
  function Prefix(n: nat): seq<Good>
    decreases n
  {
    if n == 0 then [] else Prefix(n - 1) + CategoryList(n - 1)
  }

  lemma {:induction false} PrefixMembers(n: nat, g: Good)
    requires n <= 7
    ensures g in Prefix(n) <==> CategoryIndex(g) < n
    decreases n
  {
    if n > 0 {
      PrefixMembers(n - 1, g);
      CategoryListMembers(n - 1, g);
    }
  }

  lemma {:induction false} PrefixNoDup(n: nat)
    requires n <= 7
    ensures Lists.NoDup(Prefix(n))
    decreases n
  {
    if n > 0 {
      PrefixNoDup(n - 1);
      CategoryListNoDup(n - 1);
      var front, last := Prefix(n - 1), CategoryList(n - 1);
      forall i | 0 <= i < |front| ensures front[i] !in last {
        PrefixMembers(n - 1, front[i]);
        CategoryListMembers(n - 1, front[i]);
      }
      Lists.NoDupConcat(front, last);
    }
  }

  /** `all_goods` is the concatenation of all seven category lists. */
  lemma AllGoodsIsPrefix()
    ensures AllGoods() == Prefix(7)
  {
    calc {
      Prefix(7);
      Prefix(6) + AllConsumableItems();
      Prefix(5) + AllComplexFood() + AllConsumableItems();
      Prefix(4) + AllSimpleFood() + AllComplexFood() + AllConsumableItems();
      Prefix(3) + AllClothing() + AllSimpleFood() + AllComplexFood() + AllConsumableItems();
      Prefix(2) + AllBuildingMaterials() + AllClothing() + AllSimpleFood() + AllComplexFood() + AllConsumableItems();
      Prefix(1) + AllCraftingResources() + AllBuildingMaterials() + AllClothing() + AllSimpleFood() + AllComplexFood() + AllConsumableItems();
      { assert Prefix(1) == [] + AllFuel() == AllFuel(); }
      AllGoods();
    }
  }

  /** `all_goods` lists all 52 goods, each exactly once. */
  lemma AllGoodsComplete(g: Good)
    ensures |AllGoods()| == 52
    ensures g in AllGoods()
    ensures Lists.Count(AllGoods(), g) == 1
  {
    AllGoodsIsPrefix();
    PrefixMembers(7, g);
    PrefixNoDup(7);
    Lists.CountNoDup(AllGoods(), g);
  }
}
