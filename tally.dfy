/**
 * Counting needs. For every selected species, each need on its list adds
 * one to that need's count (the first occurrence inserts 1). The counter is
 * an ordered map keyed by needs, so it is read back in ascending need
 * order; those pairs are then sorted by descending count with a stable
 * sort, which leaves needs of equal count in ascending need order.
 */
module Tally {
  import Lists
  import Needs
  import SpeciesTable

  /** One counted need: a pair of the counter. */
  datatype Tally = Tally(need: Needs.Need, count: nat)

  /** The count the counter holds for `n`, 0 when `n` is not a key. */
  function Get(m: map<Needs.Need, nat>, n: Needs.Need): nat {
    if n in m then m[n] else 0
  }

  /** How many of the selected species list `n` among their needs. */
  function Occurrences(selected: seq<SpeciesTable.Species>, n: Needs.Need): nat
    decreases |selected|
  {
    if selected == [] then 0
    else Occurrences(selected[..|selected| - 1], n) + Lists.Count(SpeciesTable.NeedsOf(selected[|selected| - 1]), n)
  }

  /**
   * The counter after counting the needs of `selected` on top of `seed`: a
   * need is a key iff it was seeded or occurs, and its count is its seed
   * plus its number of occurrences.
   */
  function Tallied(seed: map<Needs.Need, nat>, selected: seq<SpeciesTable.Species>): map<Needs.Need, nat> {
    map n | n in Needs.AllNeeds() && (n in seed || Occurrences(selected, n) > 0) :: Get(seed, n) + Occurrences(selected, n)
  }

  lemma TalliedMeaning(seed: map<Needs.Need, nat>, selected: seq<SpeciesTable.Species>, n: Needs.Need)
    ensures n in Tallied(seed, selected) <==> n in seed || Occurrences(selected, n) > 0
    ensures Get(Tallied(seed, selected), n) == Get(seed, n) + Occurrences(selected, n)
  {
    Needs.AllNeedsAscending(n);
  }

  /**
   * A species lists a need at most once, so no need occurs more often than
   * there are selected species.
   */
  /** Some selected species lists `n` among its needs. */
  predicate Listed(selected: seq<SpeciesTable.Species>, n: Needs.Need) {
    exists i :: 0 <= i < |selected| && n in SpeciesTable.NeedsOf(selected[i])
  }

  lemma ListedSnoc(front: seq<SpeciesTable.Species>, s: SpeciesTable.Species, n: Needs.Need)
    ensures Listed(front + [s], n) <==> Listed(front, n) || n in SpeciesTable.NeedsOf(s)
  {
    var all := front + [s];
    if Listed(front, n) {
      var i :| 0 <= i < |front| && n in SpeciesTable.NeedsOf(front[i]);
      assert all[i] == front[i];
    }
    if n in SpeciesTable.NeedsOf(s) {
      assert all[|front|] == s;
    }
    if Listed(all, n) {
      var i :| 0 <= i < |all| && n in SpeciesTable.NeedsOf(all[i]);
      if i < |front| {
        assert all[i] == front[i];
      }
    }
  }

  /** A need occurs iff some selected species lists it. */
  lemma {:induction false} OccursIff(selected: seq<SpeciesTable.Species>, n: Needs.Need)
    ensures Occurrences(selected, n) > 0 <==> Listed(selected, n)
    decreases |selected|
  {
    if selected != [] {
      var front := selected[..|selected| - 1];
      var s := selected[|selected| - 1];
      assert selected == front + [s];
      OccursIff(front, n);
      Lists.CountPositive(SpeciesTable.NeedsOf(s), n);
      ListedSnoc(front, s, n);
      assert Occurrences(selected, n) == Occurrences(front, n) + Lists.Count(SpeciesTable.NeedsOf(s), n);
    }
  }

  lemma {:induction false} OccurrencesBound(selected: seq<SpeciesTable.Species>, n: Needs.Need)
    ensures Occurrences(selected, n) <= |selected|
    decreases |selected|
  {
    if selected != [] {
      var last := selected[|selected| - 1];
      OccurrencesBound(selected[..|selected| - 1], n);
      SpeciesTable.NeedsDistinct(last);
      Lists.CountNoDup(SpeciesTable.NeedsOf(last), n);
    }
  }

  /** No species lists a building material, so building materials never occur. */
  lemma {:induction false} BuildingMaterialsNeverOccur(selected: seq<SpeciesTable.Species>, m: Needs.Goods.BuildingMaterial)
    ensures Occurrences(selected, Needs.BuildingMaterial(m)) == 0
    decreases |selected|
  {
    if selected != [] {
      var last := selected[|selected| - 1];
      var needs := SpeciesTable.NeedsOf(last);
      BuildingMaterialsNeverOccur(selected[..|selected| - 1], m);
      SpeciesTable.NeedsDistinct(last);
      Lists.CountNoDup(needs, Needs.BuildingMaterial(m));
      assert Needs.BuildingMaterial(m) !in needs by {
        forall k | 0 <= k < |needs| ensures needs[k] != Needs.BuildingMaterial(m) {
          assert !needs[k].BuildingMaterial?;
        }
      }
    }
  }

  /** Selecting one more species adds one to the count of each need it lists, and nothing to the others. */
  lemma {:induction false} OccurrencesAppend(selected: seq<SpeciesTable.Species>, s: SpeciesTable.Species, n: Needs.Need)
    ensures Occurrences(selected + [s], n) == Occurrences(selected, n) + (if n in SpeciesTable.NeedsOf(s) then 1 else 0)
  {
    assert (selected + [s])[..|selected|] == selected;
    SpeciesTable.NeedsDistinct(s);
    Lists.CountNoDup(SpeciesTable.NeedsOf(s), n);
  }

  /**
   * The counting loops: for each selected species in turn, for each of its
   * needs, add one to the need's count, inserting 1 the first time.
   */
  method CountNeeds(selected: seq<SpeciesTable.Species>, seed: map<Needs.Need, nat>) returns (counter: map<Needs.Need, nat>)
    ensures counter == Tallied(seed, selected)
  {
    counter := seed;
    for i := 0 to |selected|
      invariant forall n :: Get(counter, n) == Get(seed, n) + Occurrences(selected[..i], n)
      invariant forall n :: n in counter <==> n in seed || Occurrences(selected[..i], n) > 0
    {
      assert selected[..i + 1][..i] == selected[..i];
      counter := AddNeeds(counter, SpeciesTable.NeedsOf(selected[i]));
    }
    assert selected[..|selected|] == selected;
    TalliedExtensional(seed, selected, counter);
  }

  /** The inner loop: one species' needs, each adding one to its count. */
  method AddNeeds(counter: map<Needs.Need, nat>, needs: seq<Needs.Need>) returns (r: map<Needs.Need, nat>)
    ensures forall n :: Get(r, n) == Get(counter, n) + Lists.Count(needs, n)
    ensures forall n :: n in r <==> n in counter || Lists.Count(needs, n) > 0
  {
    r := counter;
    for j := 0 to |needs|
      invariant forall n :: Get(r, n) == Get(counter, n) + Lists.Count(needs[..j], n)
      invariant forall n :: n in r <==> n in counter || Lists.Count(needs[..j], n) > 0
    {
      assert needs[..j + 1][..j] == needs[..j];
      var need := needs[j];
      if need in r {
        r := r[need := r[need] + 1];
      } else {
        r := r[need := 1];
      }
    }
    assert needs[..|needs|] == needs;
  }

  /** A counter that agrees with `Tallied` on every key and every count is `Tallied`. */
  lemma TalliedExtensional(seed: map<Needs.Need, nat>, selected: seq<SpeciesTable.Species>, counter: map<Needs.Need, nat>)
    requires forall n :: Get(counter, n) == Get(seed, n) + Occurrences(selected, n)
    requires forall n :: n in counter <==> n in seed || Occurrences(selected, n) > 0
    ensures counter == Tallied(seed, selected)
  {
    forall n ensures n in counter <==> n in Tallied(seed, selected) {
      TalliedMeaning(seed, selected, n);
    }
    forall n | n in counter ensures counter[n] == Tallied(seed, selected)[n] {
      TalliedMeaning(seed, selected, n);
    }
  }

  // ------------------------------------------------------------ reading back

  /** The pairs of `m` whose keys occur in `keys`, in the order of `keys`. */
  function EntriesOver(keys: seq<Needs.Need>, m: map<Needs.Need, nat>): seq<Tally>
    decreases |keys|
  {
    if keys == [] then []
    else (if keys[0] in m then [Tally(keys[0], m[keys[0]])] else []) + EntriesOver(keys[1..], m)
  }

  /** Iterating the counter: its pairs in ascending need order. */
  function Entries(m: map<Needs.Need, nat>): seq<Tally> {
    EntriesOver(Needs.AllNeeds(), m)
  }

  /** Strictly ascending need order. */
  predicate Ascending(r: seq<Tally>) {
    forall k, l :: 0 <= k < l < |r| ==> Needs.Key(r[k].need) < Needs.Key(r[l].need)
  }

  /** Every pair read back is a key of `keys` and of the counter, with its count. */
  lemma {:induction false} EntriesOverSound(keys: seq<Needs.Need>, m: map<Needs.Need, nat>)
    ensures forall k :: 0 <= k < |EntriesOver(keys, m)| ==>
      EntriesOver(keys, m)[k].need in keys && EntriesOver(keys, m)[k].need in m
      && EntriesOver(keys, m)[k].count == m[EntriesOver(keys, m)[k].need]
    decreases |keys|
  {
    if keys != [] {
      EntriesOverSound(keys[1..], m);
      var rest := EntriesOver(keys[1..], m);
      var head := if keys[0] in m then [Tally(keys[0], m[keys[0]])] else [];
      assert EntriesOver(keys, m) == head + rest;
      forall k | 0 <= k < |rest| ensures rest[k].need in keys {
        assert rest[k].need in keys[1..];
      }
    }
  }

  /** Keys in ascending order are read back in ascending order. */
  lemma {:induction false} EntriesOverAscending(keys: seq<Needs.Need>, m: map<Needs.Need, nat>)
    requires forall i, j :: 0 <= i < j < |keys| ==> Needs.Key(keys[i]) < Needs.Key(keys[j])
    ensures Ascending(EntriesOver(keys, m))
    decreases |keys|
  {
    if keys != [] {
      var rest := EntriesOver(keys[1..], m);
      EntriesOverAscending(keys[1..], m);
      EntriesOverSound(keys[1..], m);
      var head := if keys[0] in m then [Tally(keys[0], m[keys[0]])] else [];
      assert EntriesOver(keys, m) == head + rest;
      forall k | 0 <= k < |rest| ensures Needs.Key(keys[0]) < Needs.Key(rest[k].need) {
        var i :| 0 <= i < |keys[1..]| && keys[1..][i] == rest[k].need;
        assert keys[1..][i] == keys[i + 1];
      }
    }
  }

  /** Every key of the counter that occurs in `keys` is read back. */
  lemma {:induction false} EntriesOverComplete(keys: seq<Needs.Need>, m: map<Needs.Need, nat>, n: Needs.Need)
    requires n in keys && n in m
    ensures exists k :: 0 <= k < |EntriesOver(keys, m)| && EntriesOver(keys, m)[k].need == n
    decreases |keys|
  {
    var r := EntriesOver(keys, m);
    var head := if keys[0] in m then [Tally(keys[0], m[keys[0]])] else [];
    assert r == head + EntriesOver(keys[1..], m);
    if n == keys[0] {
      assert r[0].need == n;
    } else {
      assert n in keys[1..];
      EntriesOverComplete(keys[1..], m, n);
      var k :| 0 <= k < |EntriesOver(keys[1..], m)| && EntriesOver(keys[1..], m)[k].need == n;
      assert r[|head| + k].need == n;
    }
  }

  /** Reading back over ascending keys that cover the counter. */
  lemma EntriesOverMeaning(keys: seq<Needs.Need>, m: map<Needs.Need, nat>)
    requires forall i, j :: 0 <= i < j < |keys| ==> Needs.Key(keys[i]) < Needs.Key(keys[j])
    requires forall n :: n in m ==> n in keys
    ensures Ascending(EntriesOver(keys, m))
    ensures forall k :: 0 <= k < |EntriesOver(keys, m)| ==>
      EntriesOver(keys, m)[k].need in m && EntriesOver(keys, m)[k].count == m[EntriesOver(keys, m)[k].need]
    ensures forall n :: n in m ==> exists k :: 0 <= k < |EntriesOver(keys, m)| && EntriesOver(keys, m)[k].need == n
  {
    EntriesOverSound(keys, m);
    EntriesOverAscending(keys, m);
    forall n | n in m ensures exists k :: 0 <= k < |EntriesOver(keys, m)| && EntriesOver(keys, m)[k].need == n {
      EntriesOverComplete(keys, m, n);
    }
  }

  /**
   * The counter is read back in ascending need order, every pair exactly
   * once and with its count.
   */
  lemma EntriesMeaning(m: map<Needs.Need, nat>)
    ensures Ascending(Entries(m))
    ensures forall k :: 0 <= k < |Entries(m)| ==> Entries(m)[k].need in m && Entries(m)[k].count == m[Entries(m)[k].need]
    ensures forall n :: n in m ==> exists k :: 0 <= k < |Entries(m)| && Entries(m)[k].need == n
  {
    var keys := Needs.AllNeeds();
    forall n | n in m ensures n in keys {
      Needs.AllNeedsAscending(n);
    }
    EntriesOverMeaning(keys, m);
  }

  // ---------------------------------------------------------------- sorting

  /**
   * `x` placed after every pair whose count is at least its own: one step
   * of a stable sort by descending count.
   */
  function Insert(t: seq<Tally>, x: Tally): seq<Tally>
    decreases |t|
  {
    if t == [] then [x]
    else if t[0].count < x.count then [x] + t
    else [t[0]] + Insert(t[1..], x)
  }

  /** `sort_by` descending count: a stable sort, written as insertion of each pair in turn. */
  function SortByCount(s: seq<Tally>): seq<Tally>
    decreases |s|
  {
    if s == [] then [] else Insert(SortByCount(s[..|s| - 1]), s[|s| - 1])
  }

  /** The report order: descending count, ties in ascending need order. */
  predicate Ordered(r: seq<Tally>) {
    forall k, l :: 0 <= k < l < |r| ==>
      r[k].count > r[l].count || (r[k].count == r[l].count && Needs.Key(r[k].need) < Needs.Key(r[l].need))
  }

  lemma {:induction false} InsertKeeps(t: seq<Tally>, x: Tally)
    ensures multiset(Insert(t, x)) == multiset(t) + multiset{x}
    decreases |t|
  {
    if t != [] {
      assert t == [t[0]] + t[1..];
      InsertKeeps(t[1..], x);
    }
  }

  /** Inserting a pair whose need is above every need present keeps the report order. */
  lemma {:induction false} InsertOrdered(t: seq<Tally>, x: Tally)
    requires Ordered(t)
    requires forall k :: 0 <= k < |t| ==> Needs.Key(t[k].need) < Needs.Key(x.need)
    ensures Ordered(Insert(t, x))
    decreases |t|
  {
    if t != [] && t[0].count >= x.count {
      var tail := Insert(t[1..], x);
      InsertOrdered(t[1..], x);
      InsertKeeps(t[1..], x);
      forall l | 0 <= l < |tail|
        ensures t[0].count > tail[l].count || (t[0].count == tail[l].count && Needs.Key(t[0].need) < Needs.Key(tail[l].need))
      {
        assert tail[l] in multiset(t[1..]) + multiset{x};
        if tail[l] != x {
          var i :| 0 <= i < |t[1..]| && t[1..][i] == tail[l];
          assert t[i + 1] == tail[l];
        }
      }
      OrderedCons(t[0], tail);
    }
  }

  lemma OrderedCons(x: Tally, tail: seq<Tally>)
    requires Ordered(tail)
    requires forall l :: 0 <= l < |tail| ==>
      x.count > tail[l].count || (x.count == tail[l].count && Needs.Key(x.need) < Needs.Key(tail[l].need))
    ensures Ordered([x] + tail)
  {
    var r := [x] + tail;
    forall k, l | 0 <= k < l < |r|
      ensures r[k].count > r[l].count || (r[k].count == r[l].count && Needs.Key(r[k].need) < Needs.Key(r[l].need))
    {
      assert r[l] == tail[l - 1];
      if k > 0 {
        assert r[k] == tail[k - 1];
      }
    }
  }

  /**
   * Sorting keeps exactly the same pairs, and turns a list in ascending
   * need order into the report order.
   */
  lemma {:induction false} SortKeeps(s: seq<Tally>)
    ensures multiset(SortByCount(s)) == multiset(s)
    ensures |SortByCount(s)| == |s|
    decreases |s|
  {
    if s != [] {
      var front := s[..|s| - 1];
      SortKeeps(front);
      InsertKeeps(SortByCount(front), s[|s| - 1]);
      assert s == front + [s[|s| - 1]];
      assert |multiset(SortByCount(s))| == |multiset(s)|;
    }
  }

  lemma {:induction false} SortOrdered(s: seq<Tally>)
    requires Ascending(s)
    ensures Ordered(SortByCount(s))
    decreases |s|
  {
    if s != [] {
      var front := s[..|s| - 1];
      var x := s[|s| - 1];
      var t := SortByCount(front);
      assert Ascending(front) by {
        assert forall k :: 0 <= k < |front| ==> front[k] == s[k];
      }
      SortOrdered(front);
      SortKeeps(front);
      forall k | 0 <= k < |t| ensures Needs.Key(t[k].need) < Needs.Key(x.need) {
        assert t[k] in multiset(front);
        var i :| 0 <= i < |front| && front[i] == t[k];
        assert s[i] == t[k];
      }
      InsertOrdered(t, x);
    }
  }

  /**
   * The pairs the report walks through: the counter's pairs, each exactly
   * once with its count, in descending count with ties in ascending need
   * order.
   */
  lemma ReportOrder(m: map<Needs.Need, nat>)
    ensures Ordered(SortByCount(Entries(m)))
    ensures forall k :: 0 <= k < |SortByCount(Entries(m))| ==>
      SortByCount(Entries(m))[k].need in m && SortByCount(Entries(m))[k].count == m[SortByCount(Entries(m))[k].need]
    ensures forall n :: n in m ==> exists k :: 0 <= k < |SortByCount(Entries(m))| && SortByCount(Entries(m))[k].need == n
  {
    EntriesMeaning(m);
    SortedEntries(Entries(m), m);
  }

  lemma SortedEntries(e: seq<Tally>, m: map<Needs.Need, nat>)
    requires Ascending(e)
    requires forall k :: 0 <= k < |e| ==> e[k].need in m && e[k].count == m[e[k].need]
    requires forall n :: n in m ==> exists k :: 0 <= k < |e| && e[k].need == n
    ensures Ordered(SortByCount(e))
    ensures forall k :: 0 <= k < |SortByCount(e)| ==>
      SortByCount(e)[k].need in m && SortByCount(e)[k].count == m[SortByCount(e)[k].need]
    ensures forall n :: n in m ==> exists k :: 0 <= k < |SortByCount(e)| && SortByCount(e)[k].need == n
  {
    var r := SortByCount(e);
    SortKeeps(e);
    SortOrdered(e);
    forall k | 0 <= k < |r| ensures r[k] in e {
      assert r[k] in multiset(e);
    }
    forall n | n in m ensures exists k :: 0 <= k < |r| && r[k].need == n {
      var i :| 0 <= i < |e| && e[i].need == n;
      assert e[i] in multiset(r);
      var k :| 0 <= k < |r| && r[k] == e[i];
    }
  }

  /** The pairs the report walks through: the counter after seeding and counting, in report order. */
  function Ranked(seed: map<Needs.Need, nat>, selected: seq<SpeciesTable.Species>): seq<Tally> {
    SortByCount(Entries(Tallied(seed, selected)))
  }

  /**
   * `r` walks through the needs that were seeded or that some selected
   * species lists, and no others, each with its seed plus the number of
   * selected species that list it, in descending count with ties in
   * ascending need order.
   */
  ghost predicate RankedBy(r: seq<Tally>, seed: map<Needs.Need, nat>, selected: seq<SpeciesTable.Species>) {
    && Ordered(r)
    && (forall k :: 0 <= k < |r| ==>
          r[k].count == Get(seed, r[k].need) + Occurrences(selected, r[k].need) && (r[k].need in seed || Listed(selected, r[k].need)))
    && (forall n :: n in seed || Listed(selected, n) ==> exists k :: 0 <= k < |r| && r[k].need == n)
  }

  /** The sorted pairs of the counter are the ranked needs. */
  lemma RankedMeaning(seed: map<Needs.Need, nat>, selected: seq<SpeciesTable.Species>)
    ensures RankedBy(Ranked(seed, selected), seed, selected)
  {
    var m := Tallied(seed, selected);
    var r := Ranked(seed, selected);
    ReportOrder(m);
    forall k | 0 <= k < |r|
      ensures r[k].count == Get(seed, r[k].need) + Occurrences(selected, r[k].need)
      ensures r[k].need in seed || Listed(selected, r[k].need)
    {
      TalliedMeaning(seed, selected, r[k].need);
      OccursIff(selected, r[k].need);
    }
    forall n | n in seed || Listed(selected, n) ensures exists k :: 0 <= k < |r| && r[k].need == n {
      OccursIff(selected, n);
      Needs.AllNeedsAscending(n);
      assert n in Needs.AllNeeds();
      TalliedMeaning(seed, selected, n);
    }
  }

  /** The pair of one seeded or listed need: where it stands and its count. */
  lemma RankedFind(r: seq<Tally>, seed: map<Needs.Need, nat>, selected: seq<SpeciesTable.Species>, n: Needs.Need) returns (k: nat)
    requires RankedBy(r, seed, selected)
    requires n in seed || Listed(selected, n)
    ensures k < |r| && r[k].need == n
    ensures r[k].count == Get(seed, n) + Occurrences(selected, n)
  {
    k :| 0 <= k < |r| && r[k].need == n;
  }
}
