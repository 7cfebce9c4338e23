/**
 * What a species asks of a settlement: a piece of clothing, a complex food,
 * a service or a building material. A service is supplied by exactly one
 * consumable good.
 *
 * `Need` derives its ordering, so needs compare first by the position of
 * their variant in the declaration and then by the declaration position of
 * the wrapped value. The report's tie-break rests on this order. The
 * `BuildingMaterial` variant, which the report seeds, is declared last:
 * Clothing < ComplexFood < Service < BuildingMaterial.
 */
module Needs {
  import Text
  import Lists
  import Goods

  datatype Service = Education | Religion | Treatment | Luxury | Leisure | Brawling

  datatype Need =
    | Clothing(clothing: Goods.Clothing)
    | ComplexFood(complexFood: Goods.ComplexFood)
    | Service(service: Service)
    | BuildingMaterial(buildingMaterial: Goods.BuildingMaterial)

  // -------------------------------------------------------------- services

  /** Declaration position of a service. */
  function ServiceRank(s: Service): nat {
    match s
    case Education => 0
    case Religion => 1
    case Treatment => 2
    case Luxury => 3
    case Leisure => 4
    case Brawling => 5
  }

  function ServiceWords(s: Service): seq<string> {
    match s
    case Education => ["Education"]
    case Religion => ["Religion"]
    case Treatment => ["Treatment"]
    case Luxury => ["Luxury"]
    case Leisure => ["Leisure"]
    case Brawling => ["Brawling"]
  }

  lemma ServiceWordsAreWords(s: Service)
    ensures Text.AllWords(ServiceWords(s))
  {
  }

  /** `all_services`: every service once, in declaration order. */
  function AllServices(): (r: seq<Service>)
    ensures |r| == 6
    ensures forall i :: 0 <= i < |r| ==> ServiceRank(r[i]) == i
  {
    [Education, Religion, Treatment, Luxury, Leisure, Brawling]
  }

  lemma AllServicesComplete(s: Service)
    ensures s in AllServices()
    ensures Lists.NoDup(AllServices())
  {
    var all := AllServices();
    assert all[ServiceRank(s)] == s;
    forall i, j | 0 <= i < j < |all| ensures all[i] != all[j] {
      assert ServiceRank(all[i]) != ServiceRank(all[j]);
    }
    DistinctNoDup(all);
  }

  lemma {:induction false} DistinctNoDup<T>(s: seq<T>)
    requires forall i, j :: 0 <= i < j < |s| ==> s[i] != s[j]
    ensures Lists.NoDup(s)
    decreases |s|
  {
    if s != [] {
      forall i, j | 0 <= i < j < |s[1..]| ensures s[1..][i] != s[1..][j] {
        assert s[1..][i] == s[i + 1] && s[1..][j] == s[j + 1];
      }
      DistinctNoDup(s[1..]);
      forall k | 0 <= k < |s[1..]| ensures s[1..][k] != s[0] {
        assert s[1..][k] == s[k + 1];
      }
    }
  }

  /** The consumable good that supplies a service. */
  function ServiceGood(s: Service): (r: Goods.ConsumableItem) {
    match s
    case Education => Goods.Scrolls
    case Religion => Goods.Incense
    case Treatment => Goods.Tea
    case Luxury => Goods.Wine
    case Leisure => Goods.Ale
    case Brawling => Goods.TrainingGear
  }

  /** The service a consumable good supplies: the inverse of `ServiceGood`. */
  function SuppliedService(c: Goods.ConsumableItem): (r: Service) {
    match c
    case Scrolls => Education
    case Incense => Religion
    case Tea => Treatment
    case Wine => Luxury
    case Ale => Leisure
    case TrainingGear => Brawling
  }

  /**
   * Every service is supplied by its own good: the mapping from services to
   * consumable goods is a bijection, so no two services share a good.
   */
  lemma ServiceGoodBijective(s: Service, t: Service, c: Goods.ConsumableItem)
    ensures SuppliedService(ServiceGood(s)) == s
    ensures ServiceGood(SuppliedService(c)) == c
    ensures ServiceGood(s) == ServiceGood(t) <==> s == t
  {
  }

  /** `Service::recipe`: a single slot holding the single good that supplies the service. */
  function ServiceRecipe(s: Service): (r: Goods.Slots)
    ensures |r| == 1 && |r[0]| == 1
    ensures r[0][0].ConsumableItem? && SuppliedService(r[0][0].consumableItem) == s
  {
    [[Goods.ConsumableItem(ServiceGood(s))]]
  }

  lemma ServiceRecipes()
    ensures ServiceRecipe(Education) == [[Goods.ConsumableItem(Goods.Scrolls)]]
    ensures ServiceRecipe(Religion) == [[Goods.ConsumableItem(Goods.Incense)]]
    ensures ServiceRecipe(Treatment) == [[Goods.ConsumableItem(Goods.Tea)]]
    ensures ServiceRecipe(Luxury) == [[Goods.ConsumableItem(Goods.Wine)]]
    ensures ServiceRecipe(Leisure) == [[Goods.ConsumableItem(Goods.Ale)]]
    ensures ServiceRecipe(Brawling) == [[Goods.ConsumableItem(Goods.TrainingGear)]]
  {
  }

  // ------------------------------------------------------------------ needs

  /** The good a clothing, complex-food or building-material need wraps. */
  function WrappedGood(n: Need): Lists.Option<Goods.Good> {
    match n
    case Clothing(c) => Lists.Some(Goods.Clothing(c))
    case ComplexFood(c) => Lists.Some(Goods.ComplexFood(c))
    case Service(_) => Lists.None
    case BuildingMaterial(m) => Lists.Some(Goods.BuildingMaterial(m))
  }

  /**
   * `Need::recipe`: a need that wraps a good has that good's recipe,
   * unchanged; a service need has the service's one-slot recipe.
   */
  function Recipe(n: Need): (r: Goods.Slots)
    ensures WrappedGood(n).Some? ==> r == Goods.Recipe(WrappedGood(n).value)
    ensures n.Service? ==> |r| == 1 && r[0] == [Goods.ConsumableItem(ServiceGood(n.service))]
    ensures forall k :: 0 <= k < |r| ==> |r[k]| >= 1
  {
    match n
    case Clothing(c) => Goods.ClothingRecipe(c)
    case ComplexFood(c) => Goods.ComplexFoodRecipe(c)
    case Service(s) => ServiceRecipe(s)
    case BuildingMaterial(m) => Goods.BuildingMaterialRecipe(m)
  }

  function Words(n: Need): seq<string> {
    match n
    case Service(s) => ServiceWords(s)
    case _ => Goods.Words(WrappedGood(n).value)
  }

  /**
   * `Display`: `titleize` of the wrapped value, so a need that wraps a good
   * displays exactly as that good does.
   */
  function Display(n: Need): (r: string)
    ensures r == Text.Title(Words(n))
    ensures WrappedGood(n).Some? ==> r == Goods.Display(WrappedGood(n).value)
  {
    WordsAreWords(n);
    Text.TitleizeIdentifier(Words(n));
    Text.Titleize(Text.Identifier(Words(n)))
  }

  /** `Display` of a service: `titleize` of its name, the same string as the need wrapping it. */
  function ServiceDisplay(s: Service): (r: string)
    ensures r == Text.Title(ServiceWords(s))
    ensures r == Display(Service(s))
  {
    ServiceWordsAreWords(s);
    Text.TitleizeIdentifier(ServiceWords(s));
    Text.Titleize(Text.Identifier(ServiceWords(s)))
  }

  /** No service is named like a good, so a service's display string is never a good's. */
  lemma ServiceDisplayNotGood(s: Service, g: Goods.Good)
    ensures ServiceDisplay(s) != Goods.Display(g)
  {
    ServiceWordsAreWords(s);
    Goods.WordsAreWords(g);
    Text.TitleizeIdentifier(ServiceWords(s));
    Text.TitleInjective(ServiceWords(s), Goods.Words(g));
    assert ServiceWords(s) != Goods.Words(g) by {
      assert |ServiceWords(s)| == 1;
      if |Goods.Words(g)| == 1 {
        ServiceWordNotGood(s, g);
      }
    }
  }

  lemma ServiceWordNotGood(s: Service, g: Goods.Good)
    requires |Goods.Words(g)| == 1
    ensures ServiceWords(s)[0] != Goods.Words(g)[0]
  {
    match g
    case Fuel(f) => {}
    case CraftingResource(c) => {}
    case BuildingMaterial(b) => {}
    case ConsumableItem(c) => {}
    case SimpleFood(f) => {}
    case ComplexFood(c) => {}
    case Clothing(c) => {}
  }

  lemma WordsAreWords(n: Need)
    ensures Text.AllWords(Words(n))
  {
    match n
    case Service(s) => ServiceWordsAreWords(s);
    case _ => Goods.WordsAreWords(WrappedGood(n).value);
  }

  lemma ServiceWordsDiffer(s: Service, n: Need)
    requires !n.Service?
    ensures ServiceWords(s) != Words(n)
  {
    match n
    case Clothing(c) => {}
    case ComplexFood(c) => {}
    case BuildingMaterial(m) => {}
  }

  lemma WordsInjective(a: Need, b: Need)
    ensures Words(a) == Words(b) <==> a == b
  {
    if a.Service? && !b.Service? {
      ServiceWordsDiffer(a.service, b);
    } else if !a.Service? && b.Service? {
      ServiceWordsDiffer(b.service, a);
    } else if !a.Service? && !b.Service? {
      Goods.WordsInjective(WrappedGood(a).value, WrappedGood(b).value);
    }
  }

  /** Display strings of needs are pairwise distinct. */
  lemma DisplayInjective(a: Need, b: Need)
    ensures Display(a) == Display(b) <==> a == b
  {
    WordsAreWords(a);
    WordsAreWords(b);
    Text.TitleInjective(Words(a), Words(b));
    WordsInjective(a, b);
  }

  lemma EducationDisplay()
    ensures Display(Service(Education)) == "Education"
  {
  }

  // --------------------------------------------------------------- ordering

  /** Declaration position of a need's variant. */
  function VariantIndex(n: Need): nat {
    match n
    case Clothing(_) => 0
    case ComplexFood(_) => 1
    case Service(_) => 2
    case BuildingMaterial(_) => 3
  }

  /** Declaration position of the wrapped value inside its own enum. */
  function InnerRank(n: Need): nat {
    match n
    case Clothing(c) => Goods.ClothingRank(c)
    case ComplexFood(c) => Goods.ComplexFoodRank(c)
    case Service(s) => ServiceRank(s)
    case BuildingMaterial(m) => Goods.BuildingMaterialRank(m)
  }

  /** The derived ordering: `a < b` compares variants first, then the wrapped values. */
  predicate Below(a: Need, b: Need) {
    VariantIndex(a) < VariantIndex(b) || (VariantIndex(a) == VariantIndex(b) && InnerRank(a) < InnerRank(b))
  }

  /** Position of a need in the ascending enumeration of all eighteen needs. */
  function Key(n: Need): (r: nat)
    ensures r < 18
  {
    match n
    case Clothing(c) => Goods.ClothingRank(c)
    case ComplexFood(c) => 2 + Goods.ComplexFoodRank(c)
    case Service(s) => 9 + ServiceRank(s)
    case BuildingMaterial(m) => 15 + Goods.BuildingMaterialRank(m)
  }

  /** Comparing keys is comparing needs in the derived order, and the key identifies the need. */
  lemma KeyOrder(a: Need, b: Need)
    ensures Key(a) < Key(b) <==> Below(a, b)
    ensures Key(a) == Key(b) <==> a == b
  {
  }

  /** The derived order is a strict total order. */
  lemma BelowTotal(a: Need, b: Need, c: Need)
    ensures !Below(a, a)
    ensures Below(a, b) && Below(b, c) ==> Below(a, c)
    ensures a == b || Below(a, b) || Below(b, a)
  {
    KeyOrder(a, b);
    KeyOrder(b, c);
    KeyOrder(a, c);
    KeyOrder(b, a);
    KeyOrder(a, a);
  }

  /** Every need in ascending derived order: the order a `BTreeMap` keyed by needs iterates in. */
  function AllNeeds(): (r: seq<Need>)
    ensures |r| == 18
    ensures forall i :: 0 <= i < |r| ==> Key(r[i]) == i
  {
    [ Clothing(Goods.Coats), Clothing(Goods.Boots),
      ComplexFood(Goods.Porridge), ComplexFood(Goods.Biscuits), ComplexFood(Goods.Pie),
      ComplexFood(Goods.PickledGoods), ComplexFood(Goods.Jerky), ComplexFood(Goods.Paste),
      ComplexFood(Goods.Skewers),
      Service(Education), Service(Religion), Service(Treatment), Service(Luxury),
      Service(Leisure), Service(Brawling),
      BuildingMaterial(Goods.Planks), BuildingMaterial(Goods.Fabric), BuildingMaterial(Goods.Bricks) ]
  }

  /** `AllNeeds` holds every need exactly once, at the position of its key, in ascending order. */
  lemma AllNeedsAscending(n: Need)
    ensures AllNeeds()[Key(n)] == n
    ensures forall i, j :: 0 <= i < j < |AllNeeds()| ==> Below(AllNeeds()[i], AllNeeds()[j])
  {
    var all := AllNeeds();
    KeyOrder(all[Key(n)], n);
    forall i, j | 0 <= i < j < |all| ensures Below(all[i], all[j]) {
      KeyOrder(all[i], all[j]);
    }
  }

  /** Building materials come after every other need. */
  lemma BuildingMaterialsLast(a: Need, m: Goods.BuildingMaterial)
    requires !a.BuildingMaterial?
    ensures Below(a, BuildingMaterial(m))
  {
  }
}
