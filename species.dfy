/**
 * The species a settlement can host, the fixed list of needs of each, the
 * order the menus offer them in, and the conversion from a typed name back
 * to a species.
 */
module SpeciesTable {
  import Text
  import Lists
  import Goods
  import Needs

  /** Declaration order, which is also the derived ordering. */
  datatype Species = Humans | Beavers | Lizards | Harpies | Foxes

  /** Declaration position: the derived ordering compares these. */
  function Rank(s: Species): nat {
    match s
    case Humans => 0
    case Beavers => 1
    case Lizards => 2
    case Harpies => 3
    case Foxes => 4
  }

  /** Position in `all_species`, which is not the declaration order. */
  function ListIndex(s: Species): nat {
    match s
    case Beavers => 0
    case Humans => 1
    case Harpies => 2
    case Lizards => 3
    case Foxes => 4
  }

  /** `all_species`: every species once, Beavers first. */
  function AllSpecies(): (r: seq<Species>)
    ensures |r| == 5
    ensures forall i :: 0 <= i < |r| ==> ListIndex(r[i]) == i
  {
    [Beavers, Humans, Harpies, Lizards, Foxes]
  }

  /** Every species is listed once, and the list is not in the derived order. */
  lemma AllSpeciesListed(s: Species)
    ensures AllSpecies()[ListIndex(s)] == s
    ensures Lists.NoDup(AllSpecies())
    ensures Rank(AllSpecies()[0]) > Rank(AllSpecies()[1])
  {
    var all := AllSpecies();
    forall i, j | 0 <= i < j < |all| ensures all[i] != all[j] {
      assert ListIndex(all[i]) != ListIndex(all[j]);
    }
    Needs.DistinctNoDup(all);
  }

  function Words(s: Species): seq<string> {
    match s
    case Humans => ["Humans"]
    case Beavers => ["Beavers"]
    case Lizards => ["Lizards"]
    case Harpies => ["Harpies"]
    case Foxes => ["Foxes"]
  }

  /** `Display`: `titleize` of the variant name. */
  function Display(s: Species): (r: string)
    ensures r == Text.Title(Words(s))
  {
    WordsAreWords(s);
    Text.TitleizeIdentifier(Words(s));
    Text.Titleize(Text.Identifier(Words(s)))
  }

  lemma WordsAreWords(s: Species)
    ensures Text.AllWords(Words(s))
  {
    match s
    case Humans => {}
    case Beavers => {}
    case Lizards => {}
    case Harpies => {}
    case Foxes => {}
  }

  /** Species display as their one-word names, so `pascalize` leaves them unchanged, and no two display alike. */
  lemma DisplayFacts(s: Species, t: Species)
    ensures Text.Pascalize(Display(s)) == Display(s)
    ensures Display(s) == Display(t) <==> s == t
  {
    WordsAreWords(s);
    WordsAreWords(t);
    Text.PascalizeTitle(Words(s));
    Text.TitleInjective(Words(s), Words(t));
    assert Display(s) == Text.Identifier(Words(s));
  }

  // ------------------------------------------------------------------ needs

  /** `needs`: the fixed list of needs of each species. */
  function NeedsOf(s: Species): (r: seq<Needs.Need>)
    ensures |r| == if s == Beavers then 5 else 6
    ensures forall i :: 0 <= i < |r| ==> !r[i].BuildingMaterial?
  {
    match s
    case Beavers =>
      [ Needs.ComplexFood(Goods.Biscuits), Needs.ComplexFood(Goods.PickledGoods),
        Needs.Service(Needs.Education), Needs.Service(Needs.Luxury), Needs.Clothing(Goods.Coats) ]
    case Harpies =>
      [ Needs.ComplexFood(Goods.Jerky), Needs.ComplexFood(Goods.Paste),
        Needs.Service(Needs.Education), Needs.Service(Needs.Treatment),
        Needs.Clothing(Goods.Coats), Needs.Clothing(Goods.Boots) ]
    case Humans =>
      [ Needs.ComplexFood(Goods.Porridge), Needs.ComplexFood(Goods.Biscuits), Needs.ComplexFood(Goods.Pie),
        Needs.Service(Needs.Religion), Needs.Service(Needs.Leisure), Needs.Clothing(Goods.Coats) ]
    case Lizards =>
      [ Needs.ComplexFood(Goods.Pie), Needs.ComplexFood(Goods.PickledGoods), Needs.ComplexFood(Goods.Jerky),
        Needs.ComplexFood(Goods.Skewers), Needs.Service(Needs.Brawling), Needs.Clothing(Goods.Boots) ]
    case Foxes =>
      [ Needs.ComplexFood(Goods.Porridge), Needs.ComplexFood(Goods.Skewers), Needs.ComplexFood(Goods.PickledGoods),
        Needs.Clothing(Goods.Boots), Needs.Service(Needs.Religion), Needs.Service(Needs.Treatment) ]
  }

  /** No need is listed twice by one species, so a species adds at most one to any need's count. */
  lemma NeedsDistinct(s: Species)
    ensures Lists.NoDup(NeedsOf(s))
  {
    var r := NeedsOf(s);
    forall i, j | 0 <= i < j < |r| ensures r[i] != r[j] {
      Needs.KeyOrder(r[i], r[j]);
    }
    Needs.DistinctNoDup(r);
  }

  /** Coats are needed by Beavers, Harpies and Humans, and by no one else. */
  lemma CoatsNeededBy(s: Species)
    ensures Needs.Clothing(Goods.Coats) in NeedsOf(s) <==> s == Beavers || s == Harpies || s == Humans
  {
  }

  /** Boots are needed by Harpies, Lizards and Foxes, and by no one else. */
  lemma BootsNeededBy(s: Species)
    ensures Needs.Clothing(Goods.Boots) in NeedsOf(s) <==> s == Harpies || s == Lizards || s == Foxes
  {
  }

  // ------------------------------------------------------------- conversion

  /**
   * `try_from`: the first species of `all_species` whose display equals
   * `pascalize(value)`, or an `InvalidInput` error naming the value.
   */
  function TryFrom(value: string): (r: Lists.Result<Species>)
    ensures r.Ok? ==> Display(r.value) == Text.Pascalize(value)
    ensures r.InvalidInput? <==> forall s :: Display(s) != Text.Pascalize(value)
    ensures r.InvalidInput? ==> r.message == value + " is not a valid species"
  {
    var found := Lists.FindFirst(AllSpecies(), Display, Text.Pascalize(value));
    assert found.None? ==> forall s :: Display(s) != Text.Pascalize(value) by {
      forall s ensures found.None? ==> Display(s) != Text.Pascalize(value) {
        AllSpeciesListed(s);
      }
    }
    match found
    case Some(s) => Lists.Ok(s)
    case None => Lists.InvalidInput(value + " is not a valid species")
  }

  /** Converting a species' display string gives that species back. */
  lemma TryFromDisplay(s: Species)
    ensures TryFrom(Display(s)) == Lists.Ok(s)
  {
    DisplayFacts(s, s);
    var r := TryFrom(Display(s));
    assert r.Ok? by {
      assert Display(s) == Text.Pascalize(Display(s));
    }
    DisplayFacts(r.value, s);
  }
}
