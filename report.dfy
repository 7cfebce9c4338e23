/**
 * The needs report as a sequence of structured lines instead of printed
 * text. For every counted need, in report order, the report may open a
 * group under a header "Needed by {count}/{total} species" framed by
 * dividers, then gives the need itself and one line per slot of its recipe;
 * a slot with a single alternative is followed by one line per slot of that
 * ingredient's own recipe, one level deep only. A final divider closes the
 * report.
 *
 * Lines hold the needs and goods themselves; their display names, and the
 * highlight each name gets, are computed when a line is rendered. Names are
 * plain in the planned economy; in the economy a name is selected (green)
 * when it is among the selected facets and unselected (red) otherwise.
 * Terminal colour codes are not modelled.
 */
module Report {
  import Text
  import Lists
  import Goods
  import Needs
  import SpeciesTable
  import Tally

  datatype Line =
    | Divider
    | Header(count: nat, total: nat)
    | NeedLine(need: Needs.Need)
    | SlotLine(depth: nat, alternatives: Goods.Slot)

  /** The nested lines of a single-alternative slot: one per slot of the ingredient's recipe. */
  function NestedLines(recipe: Goods.Slots): seq<Line>
    decreases |recipe|
  {
    if recipe == [] then [] else [SlotLine(2, recipe[0])] + NestedLines(recipe[1..])
  }

  /** One slot's line, followed by the nested lines when the slot has a single alternative. */
  function SlotBlock(slot: Goods.Slot): seq<Line> {
    [SlotLine(1, slot)] + (if |slot| == 1 then NestedLines(Goods.Recipe(slot[0])) else [])
  }

  function SlotLines(recipe: Goods.Slots): seq<Line>
    decreases |recipe|
  {
    if recipe == [] then [] else SlotBlock(recipe[0]) + SlotLines(recipe[1..])
  }

  /** A need's line followed by the lines of its recipe. */
  function NeedBlock(n: Needs.Need): seq<Line> {
    [NeedLine(n)] + SlotLines(Needs.Recipe(n))
  }

  /** The three lines that open a group. */
  function HeaderLines(count: nat, total: nat): seq<Line> {
    [Divider, Header(count, total), Divider]
  }

  /** What precedes a need: the header lines when a group opens, else nothing. */
  function Opening(header: bool, count: nat, total: nat): seq<Line> {
    if header then HeaderLines(count, total) else []
  }

  /**
   * The planned economy's report body: every pair gets its need block; a
   * header precedes it when its count is at least 2 and differs from the
   * count of the last header.
   */
  function PlannedBody(entries: seq<Tally.Tally>, last: Lists.Option<nat>, total: nat): seq<Line>
    decreases |entries|
  {
    if entries == [] then []
    else
      var e := entries[0];
      var header := last != Lists.Some(e.count) && e.count >= 2;
      Opening(header, e.count, total)
      + NeedBlock(e.need)
      + PlannedBody(entries[1..], if header then Lists.Some(e.count) else last, total)
  }

  /**
   * The economy's report body: only pairs with a count of at least 2 appear;
   * a header precedes a pair whose count differs from the last header's.
   */
  function EconomyBody(entries: seq<Tally.Tally>, last: Lists.Option<nat>, total: nat): seq<Line>
    decreases |entries|
  {
    if entries == [] then []
    else
      var e := entries[0];
      if e.count >= 2 then
        var header := last != Lists.Some(e.count);
        Opening(header, e.count, total)
        + NeedBlock(e.need)
        + EconomyBody(entries[1..], if header then Lists.Some(e.count) else last, total)
      else EconomyBody(entries[1..], last, total)
  }

  // --------------------------------------------------------------- building

  /** The slot loops for one need: appends the need's line and the lines of its recipe. */
  method AppendNeed(lines: seq<Line>, need: Needs.Need) returns (r: seq<Line>)
    ensures r == lines + NeedBlock(need)
  {
    r := AppendSlots(lines + [NeedLine(need)], Needs.Recipe(need));
  }

  /** The outer slot loop: one line per slot, each single-alternative slot followed by its nested lines. */
  method AppendSlots(lines: seq<Line>, recipe: Goods.Slots) returns (r: seq<Line>)
    ensures r == lines + SlotLines(recipe)
  {
    r := lines;
    assert recipe[0..] == recipe;
    for i := 0 to |recipe|
      invariant r + SlotLines(recipe[i..]) == lines + SlotLines(recipe)
    {
      var slot := recipe[i];
      assert recipe[i..][0] == slot && recipe[i..][1..] == recipe[i + 1..];
      var before := r;
      r := r + [SlotLine(1, slot)];
      if |slot| == 1 {
        r := AppendNested(r, Goods.Recipe(slot[0]));
      }
      assert r == before + SlotBlock(slot);
    }
  }

  /** The inner slot loop: one nested line per slot of a single ingredient's recipe. */
  method AppendNested(lines: seq<Line>, recipe: Goods.Slots) returns (r: seq<Line>)
    ensures r == lines + NestedLines(recipe)
  {
    r := lines;
    assert recipe[0..] == recipe;
    for j := 0 to |recipe|
      invariant r + NestedLines(recipe[j..]) == lines + NestedLines(recipe)
    {
      assert recipe[j..][1..] == recipe[j + 1..];
      r := r + [SlotLine(2, recipe[j])];
    }
  }

  // -------------------------------------------------------------- rendering

  datatype Highlight = Plain | Selected | Unselected

  /** A displayed name and how it is highlighted. */
  datatype Token = Token(text: string, highlight: Highlight)

  /** How names are highlighted: not at all, or against the selected facets. */
  datatype Colouring = NoColour | Facets(selected: seq<string>)

  /** `colorize`: selected iff the name is one of the facets. */
  function Paint(c: Colouring, text: string): Highlight {
    match c
    case NoColour => Plain
    case Facets(selected) => if text in selected then Selected else Unselected
  }

  /** The names a line shows, each with its highlight. */
  function Tokens(line: Line, c: Colouring): (r: seq<Token>)
    ensures line.NeedLine? ==> |r| == 1 && r[0].text == Needs.Display(line.need)
    ensures line.SlotLine? ==> |r| == |line.alternatives|
    ensures line.SlotLine? ==> forall k :: 0 <= k < |r| ==> r[k].text == Goods.Display(line.alternatives[k])
    ensures line.Divider? || line.Header? ==> r == []
    ensures forall k :: 0 <= k < |r| ==> r[k].highlight == Paint(c, r[k].text)
  {
    match line
    case NeedLine(n) => [Token(Needs.Display(n), Paint(c, Needs.Display(n)))]
    case SlotLine(_, slot) =>
      seq(|slot|, k requires 0 <= k < |slot| => Token(Goods.Display(slot[k]), Paint(c, Goods.Display(slot[k]))))
    case _ => []
  }

  function Digit(d: nat): char
    requires d < 10
  {
    "0123456789"[d]
  }

  /** Decimal notation of a count. */
  function Decimal(n: nat): string
    decreases n
  {
    if n < 10 then [Digit(n)] else Decimal(n / 10) + [Digit(n % 10)]
  }

  /** The names of some tokens. */
  function Texts(ts: seq<Token>): (r: seq<string>)
    ensures |r| == |ts|
    ensures forall k :: 0 <= k < |ts| ==> r[k] == ts[k].text
  {
    seq(|ts|, k requires 0 <= k < |ts| => ts[k].text)
  }

  /** The text a line prints, without colour codes; a slot line is indented two spaces per level. */
  function Render(line: Line): string {
    match line
    case Divider => "-----------------------"
    case Header(count, total) => "Needed by " + Decimal(count) + "/" + Decimal(total) + " species"
    case NeedLine(n) => " > " + Needs.Display(n)
    case SlotLine(depth, _) => seq(2 * depth, _ => ' ') + "> " + Text.Pluralize(Texts(Tokens(line, NoColour)), "or")
  }

  lemma RenderHeaderExample()
    ensures Render(Header(3, 4)) == "Needed by 3/4 species"
  {
  }

  // ------------------------------------------------------ need lines listed

  /** The needs on the need lines, in order. */
  function ListedNeeds(lines: seq<Line>): seq<Needs.Need>
    decreases |lines|
  {
    if lines == [] then []
    else (if lines[0].NeedLine? then [lines[0].need] else []) + ListedNeeds(lines[1..])
  }

  /** The counts on the header lines, in order. */
  function HeaderCounts(lines: seq<Line>): seq<nat>
    decreases |lines|
  {
    if lines == [] then []
    else (if lines[0].Header? then [lines[0].count] else []) + HeaderCounts(lines[1..])
  }

  /** The alternatives of the depth-1 slot lines, in order. */
  function DepthOne(lines: seq<Line>): seq<Goods.Slot>
    decreases |lines|
  {
    if lines == [] then []
    else (if lines[0].SlotLine? && lines[0].depth == 1 then [lines[0].alternatives] else []) + DepthOne(lines[1..])
  }

  lemma {:induction false} ListedNeedsConcat(a: seq<Line>, b: seq<Line>)
    ensures ListedNeeds(a + b) == ListedNeeds(a) + ListedNeeds(b)
    decreases |a|
  {
    if a == [] {
      assert a + b == b;
    } else {
      var ab := a + b;
      assert ab[0] == a[0];
      assert ab[1..] == a[1..] + b;
      ListedNeedsConcat(a[1..], b);
      var h := if a[0].NeedLine? then [a[0].need] else [];
      assert ListedNeeds(ab) == h + ListedNeeds(ab[1..]);
      assert ListedNeeds(a) == h + ListedNeeds(a[1..]);
    }
  }

  lemma {:induction false} HeaderCountsConcat(a: seq<Line>, b: seq<Line>)
    ensures HeaderCounts(a + b) == HeaderCounts(a) + HeaderCounts(b)
    decreases |a|
  {
    if a == [] {
      assert a + b == b;
    } else {
      var ab := a + b;
      assert ab[0] == a[0];
      assert ab[1..] == a[1..] + b;
      HeaderCountsConcat(a[1..], b);
      var h := if a[0].Header? then [a[0].count] else [];
      assert HeaderCounts(ab) == h + HeaderCounts(ab[1..]);
      assert HeaderCounts(a) == h + HeaderCounts(a[1..]);
    }
  }

  lemma {:induction false} DepthOneConcat(a: seq<Line>, b: seq<Line>)
    ensures DepthOne(a + b) == DepthOne(a) + DepthOne(b)
    decreases |a|
  {
    if a == [] {
      assert a + b == b;
    } else {
      var ab := a + b;
      assert ab[0] == a[0];
      assert ab[1..] == a[1..] + b;
      DepthOneConcat(a[1..], b);
      var h := if a[0].SlotLine? && a[0].depth == 1 then [a[0].alternatives] else [];
      assert DepthOne(ab) == h + DepthOne(ab[1..]);
      assert DepthOne(a) == h + DepthOne(a[1..]);
    }
  }

  /** Lines made only of slot lines list no need and no header. */
  lemma {:induction false} SlotOnly(lines: seq<Line>)
    requires forall i :: 0 <= i < |lines| ==> lines[i].SlotLine?
    ensures ListedNeeds(lines) == [] && HeaderCounts(lines) == []
    decreases |lines|
  {
    if lines != [] {
      SlotOnly(lines[1..]);
    }
  }

  /** The nested lines of a recipe: one line of depth 2 per slot, in order. */
  lemma {:induction false} NestedShape(recipe: Goods.Slots)
    ensures |NestedLines(recipe)| == |recipe|
    ensures forall i :: 0 <= i < |recipe| ==> NestedLines(recipe)[i] == SlotLine(2, recipe[i])
    ensures DepthOne(NestedLines(recipe)) == []
    decreases |recipe|
  {
    if recipe != [] {
      NestedShape(recipe[1..]);
    }
  }

  /** How many nested lines the single-alternative slots of a recipe add. */
  function NestedCount(recipe: Goods.Slots): nat
    decreases |recipe|
  {
    if recipe == [] then 0
    else (if |recipe[0]| == 1 then |Goods.Recipe(recipe[0][0])| else 0) + NestedCount(recipe[1..])
  }

  /** Lines that are all slot lines of depth 1 or 2. */
  predicate SlotRun(lines: seq<Line>) {
    forall i :: 0 <= i < |lines| ==> lines[i].SlotLine? && 1 <= lines[i].depth <= 2
  }

  lemma SlotRunConcat(a: seq<Line>, b: seq<Line>)
    requires SlotRun(a) && SlotRun(b)
    ensures SlotRun(a + b)
  {
    forall i | 0 <= i < |a + b| ensures (a + b)[i].SlotLine? && 1 <= (a + b)[i].depth <= 2 {
      if i >= |a| {
        assert (a + b)[i] == b[i - |a|];
      } else {
        assert (a + b)[i] == a[i];
      }
    }
  }

  /** One slot's lines: the slot at depth 1, then one nested line per slot of its single ingredient. */
  lemma SlotBlockShape(slot: Goods.Slot)
    ensures SlotRun(SlotBlock(slot))
    ensures DepthOne(SlotBlock(slot)) == [slot]
    ensures |SlotBlock(slot)| == 1 + if |slot| == 1 then |Goods.Recipe(slot[0])| else 0
  {
    var inner := if |slot| == 1 then Goods.Recipe(slot[0]) else [];
    var nested := NestedLines(inner);
    var first: seq<Line> := [SlotLine(1, slot)];
    NestedShape(inner);
    assert SlotBlock(slot) == first + nested;
    assert first[1..] == [];
    DepthOneConcat(first, nested);
    assert SlotRun(nested) by {
      forall i | 0 <= i < |nested| ensures nested[i].SlotLine? && 1 <= nested[i].depth <= 2 {
        assert nested[i] == SlotLine(2, inner[i]);
      }
    }
    SlotRunConcat(first, nested);
  }

  /**
   * The lines of a recipe are slot lines only, of depth 1 or 2; the
   * depth-1 lines are exactly the recipe's slots, in order, and each
   * single-alternative slot adds one nested line per slot of its
   * ingredient's recipe.
   */
  lemma {:induction false} SlotLinesShape(recipe: Goods.Slots)
    ensures forall i :: 0 <= i < |SlotLines(recipe)| ==>
      SlotLines(recipe)[i].SlotLine? && 1 <= SlotLines(recipe)[i].depth <= 2
    ensures DepthOne(SlotLines(recipe)) == recipe
    ensures |SlotLines(recipe)| == |recipe| + NestedCount(recipe)
    decreases |recipe|
  {
    if recipe != [] {
      var block := SlotBlock(recipe[0]);
      var rest := SlotLines(recipe[1..]);
      SlotLinesShape(recipe[1..]);
      SlotBlockShape(recipe[0]);
      DepthOneConcat(block, rest);
      SlotRunConcat(block, rest);
      assert recipe == [recipe[0]] + recipe[1..];
      assert SlotLines(recipe) == block + rest;
    }
  }

  /** A need block lists exactly its need, and no header. */
  lemma NeedBlockListed(n: Needs.Need)
    ensures ListedNeeds(NeedBlock(n)) == [n]
    ensures HeaderCounts(NeedBlock(n)) == []
  {
    var slots := SlotLines(Needs.Recipe(n));
    SlotLinesShape(Needs.Recipe(n));
    SlotOnly(slots);
    ListedNeedsConcat([NeedLine(n)], slots);
    HeaderCountsConcat([NeedLine(n)], slots);
  }

  /** An opening lists no need, and its header's count when there is one. */
  lemma OpeningListed(header: bool, count: nat, total: nat)
    ensures ListedNeeds(Opening(header, count, total)) == []
    ensures HeaderCounts(Opening(header, count, total)) == if header then [count] else []
  {
    if header {
      var h := Opening(header, count, total);
      var d: seq<Line> := [Divider];
      var hd: seq<Line> := [Header(count, total), Divider];
      assert d[1..] == [] && hd[1..] == d && h[1..] == hd;
      assert ListedNeeds(d) == [] && HeaderCounts(d) == [];
      assert ListedNeeds(hd) == [] && HeaderCounts(hd) == [count];
    }
  }

  /** The needs and header counts of three runs of lines, when the middle one lists one need and no header. */
  lemma ThreeRuns(a: seq<Line>, b: seq<Line>, tail: seq<Line>, n: Needs.Need)
    requires ListedNeeds(a) == [] && ListedNeeds(b) == [n] && HeaderCounts(b) == []
    ensures ListedNeeds(a + b + tail) == [n] + ListedNeeds(tail)
    ensures HeaderCounts(a + b + tail) == HeaderCounts(a) + HeaderCounts(tail)
  {
    ListedNeedsConcat(a, b);
    ListedNeedsConcat(a + b, tail);
    HeaderCountsConcat(a, b);
    HeaderCountsConcat(a + b, tail);
  }

  /** The needs one group of the report lists: its own, then the tail's. */
  lemma GroupNeeds(header: bool, count: nat, total: nat, n: Needs.Need, tail: seq<Line>)
    ensures ListedNeeds(Opening(header, count, total) + NeedBlock(n) + tail) == [n] + ListedNeeds(tail)
  {
    OpeningListed(header, count, total);
    NeedBlockListed(n);
    ThreeRuns(Opening(header, count, total), NeedBlock(n), tail, n);
  }

  /** The header counts of one group of the report: its own when it opens one, then the tail's. */
  lemma GroupHeaders(header: bool, count: nat, total: nat, n: Needs.Need, tail: seq<Line>)
    ensures HeaderCounts(Opening(header, count, total) + NeedBlock(n) + tail)
      == (if header then [count] else []) + HeaderCounts(tail)
  {
    OpeningListed(header, count, total);
    NeedBlockListed(n);
    ThreeRuns(Opening(header, count, total), NeedBlock(n), tail, n);
  }

  /** One group of the report: its header when it opens one, then its need. */
  lemma GroupListed(header: bool, count: nat, total: nat, n: Needs.Need, tail: seq<Line>)
    ensures ListedNeeds(Opening(header, count, total) + NeedBlock(n) + tail) == [n] + ListedNeeds(tail)
    ensures HeaderCounts(Opening(header, count, total) + NeedBlock(n) + tail)
      == (if header then [count] else []) + HeaderCounts(tail)
  {
    GroupNeeds(header, count, total, n, tail);
    GroupHeaders(header, count, total, n, tail);
  }

  /** The needs of some pairs, in order. */
  function NeedsIn(entries: seq<Tally.Tally>): (r: seq<Needs.Need>)
    ensures |r| == |entries|
    ensures forall k :: 0 <= k < |entries| ==> r[k] == entries[k].need
  {
    seq(|entries|, k requires 0 <= k < |entries| => entries[k].need)
  }

  /** The pairs with a count of at least 2, in order. */
  function Shared(entries: seq<Tally.Tally>): seq<Tally.Tally>
    decreases |entries|
  {
    if entries == [] then []
    else (if entries[0].count >= 2 then [entries[0]] else []) + Shared(entries[1..])
  }

  /** `Shared` keeps exactly the pairs of count at least 2. */
  lemma {:induction false} SharedMeaning(entries: seq<Tally.Tally>)
    ensures forall t :: t in Shared(entries) <==> t in entries && t.count >= 2
    decreases |entries|
  {
    if entries != [] {
      SharedMeaning(entries[1..]);
      assert entries == [entries[0]] + entries[1..];
    }
  }

  /** The planned economy lists every pair's need, in order, including needs of count 1. */
  lemma {:induction false} PlannedNeeds(entries: seq<Tally.Tally>, last: Lists.Option<nat>, total: nat)
    ensures ListedNeeds(PlannedBody(entries, last, total)) == NeedsIn(entries)
    decreases |entries|
  {
    if entries != [] {
      var e := entries[0];
      var header := last != Lists.Some(e.count) && e.count >= 2;
      var next := if header then Lists.Some(e.count) else last;
      var tail := PlannedBody(entries[1..], next, total);
      assert PlannedBody(entries, last, total) == Opening(header, e.count, total) + NeedBlock(e.need) + tail;
      PlannedNeeds(entries[1..], next, total);
      GroupNeeds(header, e.count, total, e.need, tail);
      assert NeedsIn(entries) == [e.need] + NeedsIn(entries[1..]);
    }
  }

  /** The economy lists exactly the needs of the pairs whose count is at least 2, in order. */
  lemma {:induction false} EconomyNeeds(entries: seq<Tally.Tally>, last: Lists.Option<nat>, total: nat)
    ensures ListedNeeds(EconomyBody(entries, last, total)) == NeedsIn(Shared(entries))
    decreases |entries|
  {
    if entries != [] {
      var e := entries[0];
      if e.count >= 2 {
        var header := last != Lists.Some(e.count);
        var next := if header then Lists.Some(e.count) else last;
        var tail := EconomyBody(entries[1..], next, total);
        assert EconomyBody(entries, last, total) == Opening(header, e.count, total) + NeedBlock(e.need) + tail;
        EconomyNeeds(entries[1..], next, total);
        GroupNeeds(header, e.count, total, e.need, tail);
        var shared := [e] + Shared(entries[1..]);
        assert Shared(entries) == shared;
        assert NeedsIn(shared) == [e.need] + NeedsIn(Shared(entries[1..]));
      } else {
        EconomyNeeds(entries[1..], last, total);
        assert Shared(entries) == [] + Shared(entries[1..]) == Shared(entries[1..]);
      }
    }
  }

  /** Pairs that no two species share print nothing in the economy. */
  lemma {:induction false} EconomyQuiet(entries: seq<Tally.Tally>, last: Lists.Option<nat>, total: nat)
    requires forall k :: 0 <= k < |entries| ==> entries[k].count < 2
    ensures EconomyBody(entries, last, total) == []
    decreases |entries|
  {
    if entries != [] {
      assert entries[0].count < 2;
      EconomyQuiet(entries[1..], last, total);
    }
  }

  // ----------------------------------------------------------------- groups

  /** Counts that never increase along the list. */
  predicate NonIncreasing(entries: seq<Tally.Tally>) {
    forall k, l :: 0 <= k < l < |entries| ==> entries[k].count >= entries[l].count
  }

  /** Some pair of the list has this count. */
  predicate HasCount(entries: seq<Tally.Tally>, x: nat) {
    exists k :: 0 <= k < |entries| && entries[k].count == x
  }

  /** Every pair's count is at most the count of the group already open. */
  predicate Within(entries: seq<Tally.Tally>, last: Lists.Option<nat>) {
    last.Some? ==> forall k :: 0 <= k < |entries| ==> entries[k].count <= last.value
  }

  /** The first pair, then the rest: the rest is ordered too and bounded by the first. */
  lemma Uncons(entries: seq<Tally.Tally>)
    requires entries != [] && NonIncreasing(entries)
    ensures NonIncreasing(entries[1..])
    ensures Within(entries[1..], Lists.Some(entries[0].count))
    ensures forall x :: HasCount(entries, x) <==> entries[0].count == x || HasCount(entries[1..], x)
  {
    var rest := entries[1..];
    assert forall k :: 0 <= k < |rest| ==> rest[k] == entries[k + 1];
    forall x ensures HasCount(entries, x) <==> entries[0].count == x || HasCount(rest, x) {
      if HasCount(rest, x) {
        var k :| 0 <= k < |rest| && rest[k].count == x;
        assert entries[k + 1].count == x;
      }
      if HasCount(entries, x) && entries[0].count != x {
        var k :| 0 <= k < |entries| && entries[k].count == x;
        assert rest[k - 1].count == x;
      }
    }
  }

  lemma WithinTail(entries: seq<Tally.Tally>, last: Lists.Option<nat>)
    requires entries != [] && Within(entries, last)
    ensures Within(entries[1..], last)
  {
    assert forall k :: 0 <= k < |entries[1..]| ==> entries[1..][k] == entries[k + 1];
  }

  /** The header counts strictly decrease and stay below the count of the group already open. */
  predicate Descending(h: seq<nat>, last: Lists.Option<nat>) {
    (forall k, l :: 0 <= k < l < |h| ==> h[k] > h[l])
    && (last.Some? ==> forall k :: 0 <= k < |h| ==> h[k] < last.value)
  }

  /** A group's count put before later, smaller group counts keeps them descending. */
  lemma DescendingCons(header: bool, count: nat, last: Lists.Option<nat>, tail: seq<nat>)
    requires Descending(tail, if header then Lists.Some(count) else last)
    requires header ==> last.Some? ==> count < last.value
    ensures Descending((if header then [count] else []) + tail, last)
  {
  }

  /**
   * Over pairs in non-increasing count order, the economy's group headers
   * strictly decrease, all below the count of the group already open.
   */
  lemma {:induction false} EconomyHeadersDecrease(entries: seq<Tally.Tally>, last: Lists.Option<nat>, total: nat)
    requires NonIncreasing(entries) && Within(entries, last)
    ensures Descending(HeaderCounts(EconomyBody(entries, last, total)), last)
    decreases |entries|
  {
    if entries != [] {
      var e := entries[0];
      Uncons(entries);
      if e.count >= 2 {
        var header := last != Lists.Some(e.count);
        var next := if header then Lists.Some(e.count) else last;
        var tail := EconomyBody(entries[1..], next, total);
        assert EconomyBody(entries, last, total) == Opening(header, e.count, total) + NeedBlock(e.need) + tail;
        EconomyHeadersDecrease(entries[1..], next, total);
        GroupListed(header, e.count, total, e.need, tail);
        DescendingCons(header, e.count, last, HeaderCounts(tail));
      } else {
        WithinTail(entries, last);
        EconomyHeadersDecrease(entries[1..], last, total);
        assert EconomyBody(entries, last, total) == EconomyBody(entries[1..], last, total);
      }
    }
  }

  /**
   * Over pairs in non-increasing count order, the economy opens a group
   * for exactly the counts of at least 2 that some pair has, other than the
   * count of the group already open.
   */
  lemma {:induction false} EconomyHeaders(entries: seq<Tally.Tally>, last: Lists.Option<nat>, total: nat)
    requires NonIncreasing(entries) && Within(entries, last)
    ensures forall x :: x in HeaderCounts(EconomyBody(entries, last, total)) <==>
      x >= 2 && last != Lists.Some(x) && HasCount(entries, x)
    decreases |entries|
  {
    if entries != [] {
      var e := entries[0];
      Uncons(entries);
      if e.count >= 2 {
        var header := last != Lists.Some(e.count);
        var next := if header then Lists.Some(e.count) else last;
        var tail := EconomyBody(entries[1..], next, total);
        assert EconomyBody(entries, last, total) == Opening(header, e.count, total) + NeedBlock(e.need) + tail;
        EconomyHeaders(entries[1..], next, total);
        GroupListed(header, e.count, total, e.need, tail);
        assert next == Lists.Some(e.count);
      } else {
        WithinTail(entries, last);
        EconomyHeaders(entries[1..], last, total);
        assert EconomyBody(entries, last, total) == EconomyBody(entries[1..], last, total);
      }
    }
  }

  /** The planned economy's group headers strictly decrease too. */
  lemma {:induction false} PlannedHeadersDecrease(entries: seq<Tally.Tally>, last: Lists.Option<nat>, total: nat)
    requires NonIncreasing(entries) && Within(entries, last)
    ensures Descending(HeaderCounts(PlannedBody(entries, last, total)), last)
    decreases |entries|
  {
    if entries != [] {
      var e := entries[0];
      Uncons(entries);
      var header := last != Lists.Some(e.count) && e.count >= 2;
      var next := if header then Lists.Some(e.count) else last;
      var tail := PlannedBody(entries[1..], next, total);
      assert PlannedBody(entries, last, total) == Opening(header, e.count, total) + NeedBlock(e.need) + tail;
      if !header { WithinTail(entries, last); }
      PlannedHeadersDecrease(entries[1..], next, total);
      GroupListed(header, e.count, total, e.need, tail);
      DescendingCons(header, e.count, last, HeaderCounts(tail));
    }
  }

  /**
   * The planned economy opens a group for exactly the same counts as the
   * economy: those of at least 2 that some pair has, other than the count
   * of the group already open.
   */
  lemma {:induction false} PlannedHeaders(entries: seq<Tally.Tally>, last: Lists.Option<nat>, total: nat)
    requires NonIncreasing(entries) && Within(entries, last)
    ensures forall x :: x in HeaderCounts(PlannedBody(entries, last, total)) <==>
      x >= 2 && last != Lists.Some(x) && HasCount(entries, x)
    decreases |entries|
  {
    if entries != [] {
      var e := entries[0];
      Uncons(entries);
      var header := last != Lists.Some(e.count) && e.count >= 2;
      var next := if header then Lists.Some(e.count) else last;
      var tail := PlannedBody(entries[1..], next, total);
      assert PlannedBody(entries, last, total) == Opening(header, e.count, total) + NeedBlock(e.need) + tail;
      if !header { WithinTail(entries, last); }
      PlannedHeaders(entries[1..], next, total);
      GroupListed(header, e.count, total, e.need, tail);
    }
  }

  // --------------------------------------------------------------- grouping

  /** A need's count: its seed plus the number of selected species that list it. */
  function NeedCount(seed: map<Needs.Need, nat>, selected: seq<SpeciesTable.Species>, n: Needs.Need): nat {
    Tally.Get(seed, n) + Tally.Occurrences(selected, n)
  }

  /** Every pair carries its need's count. */
  predicate CountedBy(entries: seq<Tally.Tally>, seed: map<Needs.Need, nat>, selected: seq<SpeciesTable.Species>) {
    forall k :: 0 <= k < |entries| ==> entries[k].count == NeedCount(seed, selected, entries[k].need)
  }

  /** No line at an index from `from` up to, not including, `to` is a header. */
  predicate NoHeaderBetween(lines: seq<Line>, from: int, to: int) {
    forall i :: 0 <= i < |lines| && from <= i < to ==> !lines[i].Header?
  }

  /** The line at `p` sits under a header of count `c` out of `total`, with no other header between them. */
  ghost predicate UnderHeader(lines: seq<Line>, p: int, c: nat, total: nat) {
    exists q :: 0 <= q < p <= |lines| && lines[q] == Header(c, total) && NoHeaderBetween(lines, q + 1, p)
  }

  /** Every need line of count at least 2 sits under the header of its own count. */
  ghost predicate Grouped(lines: seq<Line>, seed: map<Needs.Need, nat>, selected: seq<SpeciesTable.Species>, total: nat) {
    forall p :: 0 <= p < |lines| && lines[p].NeedLine? && NeedCount(seed, selected, lines[p].need) >= 2 ==>
      UnderHeader(lines, p, NeedCount(seed, selected, lines[p].need), total)
  }

  /** Every need line of count below 2 comes after every header. */
  predicate Trailing(lines: seq<Line>, seed: map<Needs.Need, nat>, selected: seq<SpeciesTable.Species>) {
    forall p :: 0 <= p < |lines| && lines[p].NeedLine? && NeedCount(seed, selected, lines[p].need) < 2 ==>
      NoHeaderBetween(lines, p, |lines|)
  }

  /** Every header is followed by a divider and then by a need of the header's count. */
  predicate HeadersLead(lines: seq<Line>, seed: map<Needs.Need, nat>, selected: seq<SpeciesTable.Species>, total: nat) {
    forall q :: 0 <= q < |lines| && lines[q].Header? ==>
      q + 2 < |lines| && lines[q + 1] == Divider && lines[q + 2].NeedLine?
      && lines[q] == Header(NeedCount(seed, selected, lines[q + 2].need), total)
  }

  /** Every need line has a count of at least 2. */
  predicate SharedOnly(lines: seq<Line>, seed: map<Needs.Need, nat>, selected: seq<SpeciesTable.Species>) {
    forall p :: 0 <= p < |lines| && lines[p].NeedLine? ==> NeedCount(seed, selected, lines[p].need) >= 2
  }

  /**
   * The count of the group open after some lines: that of the last header
   * among them, or `open` when they hold no header.
   */
  function GroupAt(lines: seq<Line>, open: Lists.Option<nat>): Lists.Option<nat>
    decreases |lines|
  {
    if lines == [] then open
    else if lines[|lines| - 1].Header? then Lists.Some(lines[|lines| - 1].count)
    else GroupAt(lines[..|lines| - 1], open)
  }

  /**
   * The group open after some lines has count `c` iff some line is a header
   * of count `c` with no header after it, or no line is a header and the
   * group open before them had count `c`.
   */
  lemma {:induction false} GroupAtMeaning(lines: seq<Line>, open: Lists.Option<nat>, c: nat)
    ensures GroupAt(lines, open) == Lists.Some(c) <==>
      (exists q :: 0 <= q < |lines| && lines[q].Header? && lines[q].count == c && NoHeaderBetween(lines, q + 1, |lines|))
      || (open == Lists.Some(c) && NoHeaderBetween(lines, 0, |lines|))
    decreases |lines|
  {
    if lines != [] {
      var m := |lines| - 1;
      var front := lines[..m];
      assert forall i :: 0 <= i < m ==> front[i] == lines[i];
      if lines[m].Header? {
        if lines[m].count == c {
          assert NoHeaderBetween(lines, m + 1, |lines|);
        }
      } else {
        GroupAtMeaning(front, open, c);
        if exists q :: 0 <= q < |lines| && lines[q].Header? && lines[q].count == c && NoHeaderBetween(lines, q + 1, |lines|) {
          var q :| 0 <= q < |lines| && lines[q].Header? && lines[q].count == c && NoHeaderBetween(lines, q + 1, |lines|);
          assert q < m && front[q].Header? && NoHeaderBetween(front, q + 1, |front|);
        }
        if exists q :: 0 <= q < |front| && front[q].Header? && front[q].count == c && NoHeaderBetween(front, q + 1, |front|) {
          var q :| 0 <= q < |front| && front[q].Header? && front[q].count == c && NoHeaderBetween(front, q + 1, |front|);
          assert lines[q].Header? && NoHeaderBetween(lines, q + 1, |lines|);
        }
      }
    }
  }

  /** The group open after two runs of lines is the one the second run leaves open. */
  lemma {:induction false} GroupAtConcat(a: seq<Line>, b: seq<Line>, open: Lists.Option<nat>)
    ensures GroupAt(a + b, open) == GroupAt(b, GroupAt(a, open))
    decreases |b|
  {
    if b == [] {
      assert a + b == a;
    } else {
      var m := |b| - 1;
      assert (a + b)[|a + b| - 1] == b[m];
      assert (a + b)[..|a + b| - 1] == a + b[..m];
      GroupAtConcat(a, b[..m], open);
    }
  }

  /** The group open after some lines is that of their last header count, if any. */
  lemma {:induction false} GroupAtHeaders(lines: seq<Line>, open: Lists.Option<nat>)
    ensures GroupAt(lines, open) ==
      if HeaderCounts(lines) == [] then open else Lists.Some(HeaderCounts(lines)[|HeaderCounts(lines)| - 1])
    decreases |lines|
  {
    if lines != [] {
      var m := |lines| - 1;
      var front := lines[..m];
      var l: seq<Line> := [lines[m]];
      assert lines == front + l;
      assert l[1..] == [];
      HeaderCountsConcat(front, l);
      GroupAtHeaders(front, open);
    }
  }

  /** Lines have no header counts iff none of them is a header. */
  lemma {:induction false} NoHeaderCounts(lines: seq<Line>)
    ensures HeaderCounts(lines) == [] <==> NoHeaderBetween(lines, 0, |lines|)
    decreases |lines|
  {
    if lines != [] {
      NoHeaderCounts(lines[1..]);
      assert forall i :: 0 <= i < |lines| - 1 ==> lines[1..][i] == lines[i + 1];
      if !NoHeaderBetween(lines, 0, |lines|) && !lines[0].Header? {
        var i :| 0 <= i < |lines| && lines[i].Header?;
        assert lines[1..][i - 1].Header?;
      }
    }
  }

  /** Every need line of count at least 2 sits in the group of its own count. */
  predicate InOwnGroup(lines: seq<Line>, seed: map<Needs.Need, nat>, selected: seq<SpeciesTable.Species>, open: Lists.Option<nat>) {
    forall p :: 0 <= p < |lines| && lines[p].NeedLine? && NeedCount(seed, selected, lines[p].need) >= 2 ==>
      GroupAt(lines[..p], open) == Lists.Some(NeedCount(seed, selected, lines[p].need))
  }

  /** The opening of a group step: the three header lines, or nothing; no need line among them. */
  lemma OpeningLines(header: bool, c: nat, total: nat)
    ensures forall i :: 0 <= i < |Opening(header, c, total)| ==> !Opening(header, c, total)[i].NeedLine?
    ensures header ==> Opening(header, c, total) == [Divider, Header(c, total), Divider]
    ensures !header ==> Opening(header, c, total) == []
  {
  }

  /** A need block starts with the need and goes on with slot lines only. */
  lemma BlockLines(n: Needs.Need)
    ensures |NeedBlock(n)| >= 1
    ensures NeedBlock(n)[0] == NeedLine(n)
    ensures forall i :: 1 <= i < |NeedBlock(n)| ==> NeedBlock(n)[i].SlotLine?
  {
    var b := NeedBlock(n);
    SlotLinesShape(Needs.Recipe(n));
    assert forall i :: 1 <= i < |b| ==> b[i] == SlotLines(Needs.Recipe(n))[i - 1];
  }

  /** The opening opens the group of its header, when there is one. */
  lemma OpeningGroup(header: bool, c: nat, total: nat, open: Lists.Option<nat>)
    ensures GroupAt(Opening(header, c, total), open) == if header then Lists.Some(c) else open
  {
    if header {
      assert Opening(header, c, total)[..2][..1] == [Divider];
    }
  }

  /** A need block leaves the open group as it was. */
  lemma BlockGroup(n: Needs.Need, open: Lists.Option<nat>)
    ensures GroupAt(NeedBlock(n), open) == open
  {
    NeedBlockListed(n);
    GroupAtHeaders(NeedBlock(n), open);
  }

  /**
   * The lines of one group step: its opening holds no need line, its need
   * block starts with the need and goes on with slot lines, and after both
   * the group open is the header's when there is one.
   */
  lemma StepShape(header: bool, c: nat, total: nat, n: Needs.Need, open: Lists.Option<nat>)
    ensures forall i :: 0 <= i < |Opening(header, c, total)| ==> !Opening(header, c, total)[i].NeedLine?
    ensures header ==> Opening(header, c, total) == [Divider, Header(c, total), Divider]
    ensures !header ==> Opening(header, c, total) == []
    ensures NeedBlock(n)[0] == NeedLine(n)
    ensures forall i :: 1 <= i < |NeedBlock(n)| ==> NeedBlock(n)[i].SlotLine?
    ensures GroupAt(Opening(header, c, total), open) == if header then Lists.Some(c) else open
    ensures GroupAt(Opening(header, c, total) + NeedBlock(n), open) == if header then Lists.Some(c) else open
  {
    var o := Opening(header, c, total);
    OpeningLines(header, c, total);
    BlockLines(n);
    OpeningGroup(header, c, total, open);
    BlockGroup(n, GroupAt(o, open));
    GroupAtConcat(o, NeedBlock(n), open);
  }

  /** A position past the first run of two lines: its line and its prefix. */
  lemma InTail(a: seq<Line>, b: seq<Line>, p: int)
    requires |a| <= p < |a| + |b|
    ensures (a + b)[p] == b[p - |a|]
    ensures (a + b)[..p] == a + b[..p - |a|]
  {
  }

  /** Need lines of two runs and a tail, when the first run has none and the second only its first. */
  lemma NeedAtIn(o: seq<Line>, b: seq<Line>, tail: seq<Line>, p: int)
    requires forall i :: 0 <= i < |o| ==> !o[i].NeedLine?
    requires forall i :: 1 <= i < |b| ==> b[i].SlotLine?
    requires 0 <= p < |o + b + tail|
    ensures (o + b + tail)[p].NeedLine? ==> p == |o| || p >= |o + b|
  {
    if p < |o| {
      assert (o + b + tail)[p] == o[p];
    } else if |o| < p < |o + b| {
      assert (o + b + tail)[p] == b[p - |o|];
    }
  }

  /** In one group step a need line is the step's own need or lies in the tail. */
  lemma NeedAt(header: bool, c: nat, total: nat, n: Needs.Need, tail: seq<Line>, p: int)
    requires 0 <= p < |Opening(header, c, total) + NeedBlock(n) + tail|
    ensures (Opening(header, c, total) + NeedBlock(n) + tail)[p].NeedLine? ==>
      p == |Opening(header, c, total)| || p >= |Opening(header, c, total) + NeedBlock(n)|
  {
    OpeningLines(header, c, total);
    BlockLines(n);
    NeedAtIn(Opening(header, c, total), NeedBlock(n), tail, p);
  }

  /** Header lines of two runs and a tail, when only the first run's second line is one. */
  lemma HeaderAtIn(o: seq<Line>, b: seq<Line>, tail: seq<Line>, q: int)
    requires forall i :: 0 <= i < |o| && o[i].Header? ==> i == 1
    requires forall i :: 0 <= i < |b| ==> !b[i].Header?
    requires 0 <= q < |o + b + tail|
    ensures (o + b + tail)[q].Header? ==> (q == 1 && q < |o|) || q >= |o + b|
  {
    if q < |o| {
      assert (o + b + tail)[q] == o[q];
    } else if q < |o + b| {
      assert (o + b + tail)[q] == b[q - |o|];
    }
  }

  /** In one group step a header line is the step's own header or lies in the tail. */
  lemma HeaderAt(header: bool, c: nat, total: nat, n: Needs.Need, tail: seq<Line>, q: int)
    requires 0 <= q < |Opening(header, c, total) + NeedBlock(n) + tail|
    ensures (Opening(header, c, total) + NeedBlock(n) + tail)[q].Header? ==>
      (header && q == 1) || q >= |Opening(header, c, total) + NeedBlock(n)|
  {
    var o := Opening(header, c, total);
    var b := NeedBlock(n);
    OpeningLines(header, c, total);
    BlockLines(n);
    assert forall i :: 0 <= i < |o| && o[i].Header? ==> i == 1;
    forall i | 0 <= i < |b| ensures !b[i].Header? {
      assert i == 0 || b[i].SlotLine?;
    }
    HeaderAtIn(o, b, tail, q);
  }

  /** One group step keeps every need of count at least 2 in the group of its own count. */
  lemma StepOwn(header: bool, c: nat, total: nat, n: Needs.Need, tail: seq<Line>,
                seed: map<Needs.Need, nat>, selected: seq<SpeciesTable.Species>, open: Lists.Option<nat>)
    requires NeedCount(seed, selected, n) == c
    requires c >= 2 ==> header || open == Lists.Some(c)
    requires InOwnGroup(tail, seed, selected, if header then Lists.Some(c) else open)
    ensures InOwnGroup(Opening(header, c, total) + NeedBlock(n) + tail, seed, selected, open)
  {
    var o := Opening(header, c, total);
    var ob := o + NeedBlock(n);
    var lines := ob + tail;
    StepShape(header, c, total, n, open);
    forall p | 0 <= p < |lines| && lines[p].NeedLine? && NeedCount(seed, selected, lines[p].need) >= 2
      ensures GroupAt(lines[..p], open) == Lists.Some(NeedCount(seed, selected, lines[p].need))
    {
      NeedAt(header, c, total, n, tail, p);
      if p == |o| {
        assert lines[..p] == o;
        assert lines[p] == NeedLine(n);
      } else {
        InTail(ob, tail, p);
        GroupAtConcat(ob, tail[..p - |ob|], open);
      }
    }
  }

  /** One group step keeps every need of count below 2 after every header, when it is followed by no header. */
  lemma StepTrailing(header: bool, c: nat, total: nat, n: Needs.Need, tail: seq<Line>,
                     seed: map<Needs.Need, nat>, selected: seq<SpeciesTable.Species>)
    requires NeedCount(seed, selected, n) == c
    requires c < 2 ==> !header && NoHeaderBetween(tail, 0, |tail|)
    requires Trailing(tail, seed, selected)
    ensures Trailing(Opening(header, c, total) + NeedBlock(n) + tail, seed, selected)
  {
    var o := Opening(header, c, total);
    var ob := o + NeedBlock(n);
    var lines := ob + tail;
    StepShape(header, c, total, n, Lists.None);
    forall p | 0 <= p < |lines| && lines[p].NeedLine? && NeedCount(seed, selected, lines[p].need) < 2
      ensures NoHeaderBetween(lines, p, |lines|)
    {
      NeedAt(header, c, total, n, tail, p);
      if p == |o| {
        assert lines[p] == NeedLine(n);
      } else {
        InTail(ob, tail, p);
      }
      forall i | 0 <= i < |lines| && p <= i ensures !lines[i].Header? {
        HeaderAt(header, c, total, n, tail, i);
        if i >= |ob| {
          InTail(ob, tail, i);
        }
      }
    }
  }

  /** One group step puts its header, if any, right before a divider and its need. */
  lemma StepLead(header: bool, c: nat, total: nat, n: Needs.Need, tail: seq<Line>,
                 seed: map<Needs.Need, nat>, selected: seq<SpeciesTable.Species>)
    requires NeedCount(seed, selected, n) == c
    requires HeadersLead(tail, seed, selected, total)
    ensures HeadersLead(Opening(header, c, total) + NeedBlock(n) + tail, seed, selected, total)
  {
    var o := Opening(header, c, total);
    var ob := o + NeedBlock(n);
    var lines := ob + tail;
    StepShape(header, c, total, n, Lists.None);
    forall q | 0 <= q < |lines| && lines[q].Header?
      ensures q + 2 < |lines| && lines[q + 1] == Divider && lines[q + 2].NeedLine?
      ensures lines[q] == Header(NeedCount(seed, selected, lines[q + 2].need), total)
    {
      HeaderAt(header, c, total, n, tail, q);
      if q < |ob| {
        assert lines[1] == Header(c, total) && lines[2] == Divider && lines[3] == NeedLine(n);
      } else {
        InTail(ob, tail, q);
        InTail(ob, tail, q + 1);
        InTail(ob, tail, q + 2);
      }
    }
  }

  /** One group step that lists a need of count at least 2 keeps every listed need shared. */
  lemma StepShared(header: bool, c: nat, total: nat, n: Needs.Need, tail: seq<Line>,
                   seed: map<Needs.Need, nat>, selected: seq<SpeciesTable.Species>)
    requires NeedCount(seed, selected, n) == c >= 2
    requires SharedOnly(tail, seed, selected)
    ensures SharedOnly(Opening(header, c, total) + NeedBlock(n) + tail, seed, selected)
  {
    var o := Opening(header, c, total);
    var ob := o + NeedBlock(n);
    var lines := ob + tail;
    StepShape(header, c, total, n, Lists.None);
    forall p | 0 <= p < |lines| && lines[p].NeedLine? ensures NeedCount(seed, selected, lines[p].need) >= 2 {
      NeedAt(header, c, total, n, tail, p);
      if p == |o| {
        assert lines[p] == NeedLine(n);
      } else {
        InTail(ob, tail, p);
      }
    }
  }

  lemma CountedTail(entries: seq<Tally.Tally>, seed: map<Needs.Need, nat>, selected: seq<SpeciesTable.Species>)
    requires entries != [] && CountedBy(entries, seed, selected)
    ensures CountedBy(entries[1..], seed, selected)
    ensures entries[0].count == NeedCount(seed, selected, entries[0].need)
  {
    assert forall k :: 0 <= k < |entries[1..]| ==> entries[1..][k] == entries[k + 1];
  }

  /**
   * In the economy body every listed need has a count of at least 2 and
   * sits in the group of its count, and every header is followed by a
   * divider and a need of its count.
   */
  lemma {:induction false} EconomyGrouped(entries: seq<Tally.Tally>, seed: map<Needs.Need, nat>,
                                         selected: seq<SpeciesTable.Species>, last: Lists.Option<nat>, total: nat)
    requires CountedBy(entries, seed, selected)
    ensures InOwnGroup(EconomyBody(entries, last, total), seed, selected, last)
    ensures SharedOnly(EconomyBody(entries, last, total), seed, selected)
    ensures HeadersLead(EconomyBody(entries, last, total), seed, selected, total)
    decreases |entries|
  {
    if entries != [] {
      var e := entries[0];
      CountedTail(entries, seed, selected);
      if e.count >= 2 {
        var header := last != Lists.Some(e.count);
        var next := if header then Lists.Some(e.count) else last;
        var tail := EconomyBody(entries[1..], next, total);
        assert EconomyBody(entries, last, total) == Opening(header, e.count, total) + NeedBlock(e.need) + tail;
        EconomyGrouped(entries[1..], seed, selected, next, total);
        StepOwn(header, e.count, total, e.need, tail, seed, selected, last);
        StepShared(header, e.count, total, e.need, tail, seed, selected);
        StepLead(header, e.count, total, e.need, tail, seed, selected);
      } else {
        EconomyGrouped(entries[1..], seed, selected, last, total);
        assert EconomyBody(entries, last, total) == EconomyBody(entries[1..], last, total);
      }
    }
  }

  /** With every count below 2 the planned body opens no group. */
  lemma {:induction false} PlannedQuiet(entries: seq<Tally.Tally>, last: Lists.Option<nat>, total: nat)
    requires forall k :: 0 <= k < |entries| ==> entries[k].count < 2
    ensures NoHeaderBetween(PlannedBody(entries, last, total), 0, |PlannedBody(entries, last, total)|)
    decreases |entries|
  {
    if entries != [] {
      var e := entries[0];
      var tail := PlannedBody(entries[1..], last, total);
      assert e.count < 2;
      assert PlannedBody(entries, last, total) == Opening(false, e.count, total) + NeedBlock(e.need) + tail;
      PlannedQuiet(entries[1..], last, total);
      NoHeaderCounts(tail);
      GroupListed(false, e.count, total, e.need, tail);
      NoHeaderCounts(PlannedBody(entries, last, total));
    }
  }

  /**
   * Over pairs in non-increasing count order, the planned body puts every
   * need of count at least 2 in the group of its count, every need of count
   * below 2 after every header, and every header right before a divider and
   * a need of its count.
   */
  lemma {:induction false} PlannedGrouped(entries: seq<Tally.Tally>, seed: map<Needs.Need, nat>,
                                         selected: seq<SpeciesTable.Species>, last: Lists.Option<nat>, total: nat)
    requires CountedBy(entries, seed, selected) && NonIncreasing(entries)
    ensures InOwnGroup(PlannedBody(entries, last, total), seed, selected, last)
    ensures Trailing(PlannedBody(entries, last, total), seed, selected)
    ensures HeadersLead(PlannedBody(entries, last, total), seed, selected, total)
    decreases |entries|
  {
    if entries != [] {
      var e := entries[0];
      CountedTail(entries, seed, selected);
      Uncons(entries);
      var header := last != Lists.Some(e.count) && e.count >= 2;
      var next := if header then Lists.Some(e.count) else last;
      var tail := PlannedBody(entries[1..], next, total);
      assert PlannedBody(entries, last, total) == Opening(header, e.count, total) + NeedBlock(e.need) + tail;
      PlannedGrouped(entries[1..], seed, selected, next, total);
      if e.count < 2 {
        PlannedQuiet(entries[1..], next, total);
      }
      StepOwn(header, e.count, total, e.need, tail, seed, selected, last);
      StepTrailing(header, e.count, total, e.need, tail, seed, selected);
      StepLead(header, e.count, total, e.need, tail, seed, selected);
    }
  }

  /** A closing divider moves no need line, opens no group and lists no need. */
  lemma ClosedGroups(body: seq<Line>, seed: map<Needs.Need, nat>, selected: seq<SpeciesTable.Species>, total: nat)
    ensures InOwnGroup(body, seed, selected, Lists.None) ==> InOwnGroup(body + [Divider], seed, selected, Lists.None)
    ensures Trailing(body, seed, selected) ==> Trailing(body + [Divider], seed, selected)
    ensures HeadersLead(body, seed, selected, total) ==> HeadersLead(body + [Divider], seed, selected, total)
    ensures SharedOnly(body, seed, selected) ==> SharedOnly(body + [Divider], seed, selected)
  {
    var lines := body + [Divider];
    assert forall p :: 0 <= p < |body| ==> lines[..p] == body[..p] && lines[p] == body[p];
  }

  /** A need line in the group of its count sits under a header of that count, when every header leads its group. */
  lemma OwnHeader(lines: seq<Line>, seed: map<Needs.Need, nat>, selected: seq<SpeciesTable.Species>, total: nat)
    requires InOwnGroup(lines, seed, selected, Lists.None)
    requires HeadersLead(lines, seed, selected, total)
    ensures Grouped(lines, seed, selected, total)
  {
    forall p | 0 <= p < |lines| && lines[p].NeedLine? && NeedCount(seed, selected, lines[p].need) >= 2
      ensures UnderHeader(lines, p, NeedCount(seed, selected, lines[p].need), total)
    {
      var c := NeedCount(seed, selected, lines[p].need);
      HeaderBefore(lines, seed, selected, total, p, c);
    }
  }

  /** The group open before `p` has count `c`: the last header before `p` is the header of count `c`. */
  lemma HeaderBefore(lines: seq<Line>, seed: map<Needs.Need, nat>, selected: seq<SpeciesTable.Species>, total: nat, p: int, c: nat)
    requires HeadersLead(lines, seed, selected, total)
    requires 0 <= p <= |lines| && GroupAt(lines[..p], Lists.None) == Lists.Some(c)
    ensures UnderHeader(lines, p, c, total)
  {
    var front := lines[..p];
    GroupAtMeaning(front, Lists.None, c);
    var q :| 0 <= q < |front| && front[q].Header? && front[q].count == c && NoHeaderBetween(front, q + 1, |front|);
    assert lines[q] == front[q] && lines[q].Header?;
    assert lines[q] == Header(NeedCount(seed, selected, lines[q + 2].need), total);
    assert lines[q] == Header(c, total);
    assert forall i :: 0 <= i < p ==> front[i] == lines[i];
    assert NoHeaderBetween(lines, q + 1, p);
  }

  /** Cutting off lines that hold no header keeps every header count. */
  lemma CutHeaders(lines: seq<Line>, p: int)
    requires 0 <= p <= |lines| && NoHeaderBetween(lines, p, |lines|)
    ensures HeaderCounts(lines[..p]) == HeaderCounts(lines)
  {
    var front := lines[..p];
    var back := lines[p..];
    assert lines == front + back;
    assert forall i :: 0 <= i < |back| ==> back[i] == lines[p + i];
    NoHeaderCounts(back);
    HeaderCountsConcat(front, back);
  }

  /**
   * A line after every header sits under the last header, or under none
   * when the lines hold no header.
   */
  lemma LastHeader(lines: seq<Line>, seed: map<Needs.Need, nat>, selected: seq<SpeciesTable.Species>, total: nat, p: int)
    requires HeadersLead(lines, seed, selected, total)
    requires 0 <= p <= |lines| && NoHeaderBetween(lines, p, |lines|)
    ensures HeaderCounts(lines) == [] ==> NoHeaderBetween(lines, 0, p)
    ensures HeaderCounts(lines) != [] ==> UnderHeader(lines, p, HeaderCounts(lines)[|HeaderCounts(lines)| - 1], total)
  {
    var front := lines[..p];
    CutHeaders(lines, p);
    GroupAtHeaders(front, Lists.None);
    if HeaderCounts(lines) == [] {
      NoHeaderCounts(front);
      assert forall i :: 0 <= i < p ==> front[i] == lines[i];
    } else {
      HeaderBefore(lines, seed, selected, total, p, HeaderCounts(lines)[|HeaderCounts(lines)| - 1]);
    }
  }

  /** The last of strictly decreasing header counts is the smallest of them. */
  lemma DescendingLast(h: seq<nat>)
    requires Descending(h, Lists.None) && h != []
    ensures forall x :: x in h ==> h[|h| - 1] <= x
  {
  }

  // ---------------------------------------------------------- ranked counts

  /** Some need is listed by exactly `x` selected species. */
  ghost predicate SharedBy(selected: seq<SpeciesTable.Species>, x: nat) {
    exists n :: Tally.Occurrences(selected, n) == x
  }

  /** `c` is the smallest count of at least 2 that some need is listed with. */
  ghost predicate SmallestShared(selected: seq<SpeciesTable.Species>, c: nat) {
    c >= 2 && SharedBy(selected, c) && forall x :: x >= 2 && SharedBy(selected, x) ==> c <= x
  }

  /**
   * When the headers are exactly the shared counts of at least 2, in
   * decreasing order, a line after every header sits under the header of the
   * smallest shared count, or under no header when no count is shared.
   */
  lemma SmallestGroup(lines: seq<Line>, seed: map<Needs.Need, nat>, selected: seq<SpeciesTable.Species>, total: nat, p: int)
    requires HeadersLead(lines, seed, selected, total)
    requires Descending(HeaderCounts(lines), Lists.None)
    requires forall x :: x in HeaderCounts(lines) <==> x >= 2 && SharedBy(selected, x)
    requires 0 <= p <= |lines| && NoHeaderBetween(lines, p, |lines|)
    ensures (forall x :: x >= 2 ==> !SharedBy(selected, x)) ==> NoHeaderBetween(lines, 0, p)
    ensures forall c :: SmallestShared(selected, c) ==> UnderHeader(lines, p, c, total)
  {
    var h := HeaderCounts(lines);
    LastHeader(lines, seed, selected, total, p);
    if h != [] {
      DescendingLast(h);
      assert h[|h| - 1] in h;
    }
  }

  /** A need listed by `x` selected species and not seeded shows up as a pair with count `x`. */
  lemma SharedCount(r: seq<Tally.Tally>, seed: map<Needs.Need, nat>, selected: seq<SpeciesTable.Species>, n: Needs.Need)
    requires Tally.RankedBy(r, seed, selected)
    requires n !in seed && Tally.Occurrences(selected, n) >= 1
    ensures HasCount(r, Tally.Occurrences(selected, n))
  {
    Tally.OccursIff(selected, n);
    var k := Tally.RankedFind(r, seed, selected, n);
    assert r[k].count == Tally.Occurrences(selected, n);
  }

  /** A seeded need shows up as a pair with its seed plus its occurrences. */
  lemma SeededCount(r: seq<Tally.Tally>, seed: map<Needs.Need, nat>, selected: seq<SpeciesTable.Species>, n: Needs.Need)
    requires Tally.RankedBy(r, seed, selected)
    requires n in seed
    ensures HasCount(r, seed[n] + Tally.Occurrences(selected, n))
  {
    var k := Tally.RankedFind(r, seed, selected, n);
    assert r[k].count == seed[n] + Tally.Occurrences(selected, n);
  }

  /** Every pair's count is its seed plus its occurrences, or its occurrences alone when not seeded. */
  lemma CountOrigin(r: seq<Tally.Tally>, seed: map<Needs.Need, nat>, selected: seq<SpeciesTable.Species>, x: nat)
    requires Tally.RankedBy(r, seed, selected)
    requires HasCount(r, x)
    ensures SharedBy(selected, x) || exists n :: n in seed && seed[n] + Tally.Occurrences(selected, n) == x
  {
    var k :| 0 <= k < |r| && r[k].count == x;
    var n := r[k].need;
    if n !in seed {
      assert Tally.Occurrences(selected, n) == x;
    } else {
      assert seed[n] + Tally.Occurrences(selected, n) == x;
    }
  }

  /**
   * Over the ranked pairs, when seeded needs are seeded with the number of
   * species and listed by none, a count of at least 2 occurs iff some need
   * is listed that many times or is seeded with it.
   */
  lemma RankedCounts(r: seq<Tally.Tally>, seed: map<Needs.Need, nat>, selected: seq<SpeciesTable.Species>, x: nat)
    requires Tally.RankedBy(r, seed, selected)
    requires x >= 2
    requires forall n :: n in seed ==> seed[n] == |selected| && Tally.Occurrences(selected, n) == 0
    ensures HasCount(r, x) <==> SharedBy(selected, x) || (exists n :: n in seed && seed[n] == x)
  {
    if HasCount(r, x) {
      CountOrigin(r, seed, selected, x);
    }
    if SharedBy(selected, x) {
      var n :| Tally.Occurrences(selected, n) == x;
      SharedCount(r, seed, selected, n);
    }
    if exists n :: n in seed && seed[n] == x {
      var n :| n in seed && seed[n] == x;
      SeededCount(r, seed, selected, n);
    }
  }
}
