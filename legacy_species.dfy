/**
 * The older species table over the flat list of needs: four species, each
 * with its fixed list of needs, and the conversion from a typed name.
 *
 * Its `try_from` searches the crate-level species list, whose elements are
 * of the newer species type; this model searches its own four variants in
 * declaration order instead.
 */
module LegacySpecies {
  import Text
  import Lists
  import Needs
  import LegacyNeeds

  datatype Species = Humans | Beavers | Lizards | Harpies

  /** Declaration position of a species. */
  function Rank(s: Species): nat {
    match s
    case Humans => 0
    case Beavers => 1
    case Lizards => 2
    case Harpies => 3
  }

  /** The four species in declaration order. */
  function AllSpecies(): (r: seq<Species>)
    ensures |r| == 4
    ensures forall i :: 0 <= i < |r| ==> Rank(r[i]) == i
  {
    [Humans, Beavers, Lizards, Harpies]
  }

  lemma AllSpeciesListed(s: Species)
    ensures AllSpecies()[Rank(s)] == s
  {
  }

  function Words(s: Species): seq<string> {
    match s
    case Humans => ["Humans"]
    case Beavers => ["Beavers"]
    case Lizards => ["Lizards"]
    case Harpies => ["Harpies"]
  }

  lemma WordsAreWords(s: Species)
    ensures Text.AllWords(Words(s))
  {
    match s
    case Humans => {}
    case Beavers => {}
    case Lizards => {}
    case Harpies => {}
  }

  /** `Display`: `titleize` of the variant name. */
  function Display(s: Species): (r: string)
    ensures r == Text.Title(Words(s))
  {
    WordsAreWords(s);
    Text.TitleizeIdentifier(Words(s));
    Text.Titleize(Text.Identifier(Words(s)))
  }

  /** One-word names: `pascalize` leaves them unchanged, and no two species display alike. */
  lemma DisplayFacts(s: Species, t: Species)
    ensures Text.Pascalize(Display(s)) == Display(s)
    ensures Display(s) == Display(t) <==> s == t
  {
    WordsAreWords(s);
    WordsAreWords(t);
    Text.PascalizeTitle(Words(s));
    Text.TitleInjective(Words(s), Words(t));
    assert Display(s) == Text.Identifier(Words(s));
  }

  /** `needs`: the fixed list of flat needs of each species. */
  function NeedsOf(s: Species): (r: seq<LegacyNeeds.Need>)
    ensures |r| == if s == Beavers then 5 else 6
  {
    match s
    case Beavers =>
      [LegacyNeeds.Biscuits, LegacyNeeds.PickledGoods, LegacyNeeds.Scrolls, LegacyNeeds.Wine, LegacyNeeds.Coats]
    case Harpies =>
      [ LegacyNeeds.Jerky, LegacyNeeds.Paste, LegacyNeeds.Scrolls, LegacyNeeds.Tea,
        LegacyNeeds.Coats, LegacyNeeds.Boots ]
    case Humans =>
      [ LegacyNeeds.Porridge, LegacyNeeds.Biscuits, LegacyNeeds.Pie, LegacyNeeds.Incense,
        LegacyNeeds.Ale, LegacyNeeds.Coats ]
    case Lizards =>
      [ LegacyNeeds.Pie, LegacyNeeds.PickledGoods, LegacyNeeds.Jerky, LegacyNeeds.Skewers,
        LegacyNeeds.TrainingGear, LegacyNeeds.Boots ]
  }

  /** No species lists a need twice. */
  lemma NeedsDistinct(s: Species)
    ensures Lists.NoDup(NeedsOf(s))
  {
    var r := NeedsOf(s);
    forall i, j | 0 <= i < j < |r| ensures r[i] != r[j] {
      LegacyNeeds.RankInjective(r[i], r[j]);
    }
    Needs.DistinctNoDup(r);
  }

  /** Coats are needed by Beavers, Harpies and Humans, and by no one else. */
  lemma CoatsNeededBy(s: Species)
    ensures LegacyNeeds.Coats in NeedsOf(s) <==> s == Beavers || s == Harpies || s == Humans
  {
  }

  /** Boots are needed by Harpies and Lizards, and by no one else. */
  lemma BootsNeededBy(s: Species)
    ensures LegacyNeeds.Boots in NeedsOf(s) <==> s == Harpies || s == Lizards
  {
  }

  /** Every flat need is needed by at least one species. */
  lemma EveryNeedNeeded(n: LegacyNeeds.Need)
    ensures exists s :: n in NeedsOf(s)
  {
    var s :=
      match n
      case Porridge | Biscuits | Pie | Incense | Ale | Coats => Humans
      case PickledGoods | Scrolls | Wine => Beavers
      case Jerky | Skewers | TrainingGear | Boots => Lizards
      case Paste | Tea => Harpies;
    assert n in NeedsOf(s);
  }

  /**
   * `try_from`: the first species whose display equals `pascalize(value)`,
   * or an `InvalidInput` error naming the value.
   */
  function TryFrom(value: string): (r: Lists.Result<Species>)
    ensures r.Ok? ==> Display(r.value) == Text.Pascalize(value)
    ensures r.InvalidInput? <==> forall s :: Display(s) != Text.Pascalize(value)
    ensures r.InvalidInput? ==> r.message == value + " is not a valid species"
  {
    var found := Lists.FindFirst(AllSpecies(), Display, Text.Pascalize(value));
    assert found.None? ==> forall s :: Display(s) != Text.Pascalize(value) by {
      forall s ensures found.None? ==> Display(s) != Text.Pascalize(value) {
        AllSpeciesListed(s);
      }
    }
    match found
    case Some(s) => Lists.Ok(s)
    case None => Lists.InvalidInput(value + " is not a valid species")
  }

  /** Converting a species' display string gives that species back. */
  lemma TryFromDisplay(s: Species)
    ensures TryFrom(Display(s)) == Lists.Ok(s)
  {
    DisplayFacts(s, s);
    var r := TryFrom(Display(s));
    assert r.Ok? by {
      assert Display(s) == Text.Pascalize(Display(s));
    }
    DisplayFacts(r.value, s);
  }
}
