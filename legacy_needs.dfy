/**
 * The older, flat list of needs: one variant per good a species can ask
 * for, with no services and no recipes. It is not reachable from the crate
 * root but is kept alongside the current catalogue.
 */
module LegacyNeeds {
  import Text

  datatype Need =
    | Porridge | Biscuits | Pie | PickledGoods | Jerky | Paste | Skewers
    | Scrolls | Incense | Tea | Wine | Ale | TrainingGear | Coats | Boots

  /** Declaration position of a variant. */
  function Rank(n: Need): nat {
    match n
    case Porridge => 0
    case Biscuits => 1
    case Pie => 2
    case PickledGoods => 3
    case Jerky => 4
    case Paste => 5
    case Skewers => 6
    case Scrolls => 7
    case Incense => 8
    case Tea => 9
    case Wine => 10
    case Ale => 11
    case TrainingGear => 12
    case Coats => 13
    case Boots => 14
  }

  /** The fifteen variants are fifteen distinct values. */
  lemma RankInjective(a: Need, b: Need)
    ensures Rank(a) < 15
    ensures Rank(a) == Rank(b) <==> a == b
  {
  }

  function Words(n: Need): seq<string> {
    match n
    case Porridge => ["Porridge"]
    case Biscuits => ["Biscuits"]
    case Pie => ["Pie"]
    case PickledGoods => ["Pickled", "Goods"]
    case Jerky => ["Jerky"]
    case Paste => ["Paste"]
    case Skewers => ["Skewers"]
    case Scrolls => ["Scrolls"]
    case Incense => ["Incense"]
    case Tea => ["Tea"]
    case Wine => ["Wine"]
    case Ale => ["Ale"]
    case TrainingGear => ["Training", "Gear"]
    case Coats => ["Coats"]
    case Boots => ["Boots"]
  }

  lemma WordsAreWords(n: Need)
    ensures Text.AllWords(Words(n))
  {
    if Rank(n) < 8 {
      FoodWordsAreWords(n);
    } else {
      OtherWordsAreWords(n);
    }
  }

  lemma FoodWordsAreWords(n: Need)
    requires Rank(n) < 8
    ensures Text.AllWords(Words(n))
  {
    match n
    case Porridge => {}
    case Biscuits => {}
    case Pie => {}
    case PickledGoods => {}
    case Jerky => {}
    case Paste => {}
    case Skewers => {}
    case Scrolls => {}
  }

  lemma OtherWordsAreWords(n: Need)
    requires Rank(n) >= 8
    ensures Text.AllWords(Words(n))
  {
    match n
    case Incense => {}
    case Tea => {}
    case Wine => {}
    case Ale => {}
    case TrainingGear => {}
    case Coats => {}
    case Boots => {}
  }

  /** `Display`: the variant name in title case. */
  function Display(n: Need): (r: string)
    ensures r == Text.Title(Words(n))
  {
    WordsAreWords(n);
    Text.TitleizeIdentifier(Words(n));
    Text.Titleize(Text.Identifier(Words(n)))
  }

  /** No two variants display alike. */
  lemma DisplayInjective(a: Need, b: Need)
    ensures Display(a) == Display(b) <==> a == b
  {
    WordsAreWords(a);
    WordsAreWords(b);
    Text.TitleInjective(Words(a), Words(b));
  }

  lemma DisplayExamples()
    ensures Display(PickledGoods) == "Pickled Goods"
    ensures Display(TrainingGear) == "Training Gear"
  {
    assert ["Pickled", "Goods"][1..] == ["Goods"];
    assert ["Training", "Gear"][1..] == ["Gear"];
  }
}
