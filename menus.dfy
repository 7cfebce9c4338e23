/**
 * Selection menus. A multi-select menu holds a fixed row of options, each
 * with a checkbox; every update replaces the whole selection, either by
 * value or by display string. `view` exposes the options as strings and
 * the indexes that are pre-checked when the prompt is shown again.
 *
 * The prompts themselves are not modelled: the answer a prompt returns is
 * an input of the update that follows it. Interacting with a multi-select
 * menu is `StringlySelect` of the strings the user confirmed; interacting
 * with a single-select menu is `Choose` of the string the user picked.
 *
 * The operations on the row are written once, as procedures on the array,
 * and used by both menu classes of the program (`MultiSelectMenu` here and
 * the planned economy's `Menu`).
 */
module Menus {
  import Lists

  datatype Checkbox = Checked | Unchecked

  /** One row of a menu: an option and its checkbox. */
  datatype Entry<T> = Entry(option: T, checkbox: Checkbox)

  /** What the prompt is built from. */
  datatype MenuView = MenuView(selectedIndexes: seq<nat>, options: seq<string>, isEmpty: bool)

  function Box(b: bool): Checkbox { if b then Checked else Unchecked }

  // ----------------------------------------------------- the specification

  /** A fresh row: the options in the given order, none checked. */
  function Unticked<T>(options: seq<T>): seq<Entry<T>> {
    seq(|options|, i requires 0 <= i < |options| => Entry(options[i], Unchecked))
  }

  /** The options of a row, in order. */
  function OptionsOf<T>(e: seq<Entry<T>>): seq<T> {
    seq(|e|, i requires 0 <= i < |e| => e[i].option)
  }

  /** The row after `select(v)`: exactly the options that occur in `v` are checked. */
  function Selected<T(==)>(e: seq<Entry<T>>, v: seq<T>): seq<Entry<T>> {
    seq(|e|, i requires 0 <= i < |e| => Entry(e[i].option, Box(e[i].option in v)))
  }

  /** The row after `stringly_select(ss)`: exactly the options whose display string is in `ss` are checked. */
  function StringlySelected<T>(e: seq<Entry<T>>, display: T -> string, ss: seq<string>): seq<Entry<T>> {
    seq(|e|, i requires 0 <= i < |e| => Entry(e[i].option, Box(display(e[i].option) in ss)))
  }

  /** The display strings of a row, in order. */
  function Displays<T>(e: seq<Entry<T>>, display: T -> string): seq<string> {
    seq(|e|, i requires 0 <= i < |e| => display(e[i].option))
  }

  /** The indexes of the checked entries, ascending. */
  function CheckedIndexes<T>(e: seq<Entry<T>>): (r: seq<nat>)
    ensures forall k :: 0 <= k < |r| ==> r[k] < |e| && e[r[k]].checkbox == Checked
    ensures forall k, l :: 0 <= k < l < |r| ==> r[k] < r[l]
    ensures forall i :: 0 <= i < |e| && e[i].checkbox == Checked ==> i in r
    decreases |e|
  {
    if e == [] then []
    else
      var front := e[..|e| - 1];
      var r := CheckedIndexes(front);
      assert forall k :: 0 <= k < |r| ==> e[r[k]] == front[r[k]];
      r + (if e[|e| - 1].checkbox == Checked then [|e| - 1] else [])
  }

  /** `get_selections`: the checked options in row order, i.e. the options at the checked indexes. */
  function CheckedOptions<T>(e: seq<Entry<T>>): (r: seq<T>)
    ensures |r| == |CheckedIndexes(e)|
    ensures forall k :: 0 <= k < |r| ==> r[k] == e[CheckedIndexes(e)[k]].option
    decreases |e|
  {
    if e == [] then []
    else
      var front := e[..|e| - 1];
      var r := CheckedOptions(front);
      assert forall k :: 0 <= k < |r| ==> CheckedIndexes(front)[k] < |front|;
      r + (if e[|e| - 1].checkbox == Checked then [e[|e| - 1].option] else [])
  }

  /** A row holds at most as many selections as options. */
  lemma {:induction false} CheckedBound<T>(e: seq<Entry<T>>)
    ensures |CheckedOptions(e)| <= |e|
    decreases |e|
  {
    if e != [] {
      CheckedBound(e[..|e| - 1]);
    }
  }

  /** `get_selection_strings`: the display strings of the checked options, in row order. */
  function CheckedStrings<T>(e: seq<Entry<T>>, display: T -> string): (r: seq<string>)
    ensures |r| == |CheckedOptions(e)|
    ensures forall k :: 0 <= k < |r| ==> r[k] == display(CheckedOptions(e)[k])
  {
    var options := CheckedOptions(e);
    seq(|options|, k requires 0 <= k < |options| => display(options[k]))
  }

  /** `view`: every display string, the checked indexes, and whether none is checked. */
  function ViewOf<T>(e: seq<Entry<T>>, display: T -> string): MenuView {
    var selected := CheckedIndexes(e);
    MenuView(selected, Displays(e, display), selected == [])
  }

  /** The strings a user confirms when the prompt opens with the checked indexes pre-ticked and nothing is changed. */
  function Preticked(view: MenuView): seq<string>
    requires forall k :: 0 <= k < |view.selectedIndexes| ==> view.selectedIndexes[k] < |view.options|
  {
    seq(|view.selectedIndexes|, k requires 0 <= k < |view.selectedIndexes| => view.options[view.selectedIndexes[k]])
  }

  // ------------------------------------------------------------- properties

  /**
   * A view lists every option's display string in order, exactly the
   * checked indexes in ascending order, and is empty iff nothing is checked.
   */
  lemma ViewMeaning<T>(e: seq<Entry<T>>, display: T -> string)
    ensures |ViewOf(e, display).options| == |e|
    ensures forall i :: 0 <= i < |e| ==> ViewOf(e, display).options[i] == display(e[i].option)
    ensures forall k, l :: 0 <= k < l < |ViewOf(e, display).selectedIndexes| ==>
      ViewOf(e, display).selectedIndexes[k] < ViewOf(e, display).selectedIndexes[l]
    ensures forall i :: 0 <= i < |e| ==> (i in ViewOf(e, display).selectedIndexes <==> e[i].checkbox == Checked)
    ensures forall i :: i in ViewOf(e, display).selectedIndexes ==> i < |e|
    ensures ViewOf(e, display).isEmpty <==> forall i :: 0 <= i < |e| ==> e[i].checkbox == Unchecked
  {
    var selected := CheckedIndexes(e);
    if !ViewOf(e, display).isEmpty {
      assert e[selected[0]].checkbox == Checked;
    }
  }

  /** A fresh menu keeps its options in the given order and has nothing checked. */
  lemma UntickedIsEmpty<T>(options: seq<T>, display: T -> string)
    ensures OptionsOf(Unticked(options)) == options
    ensures ViewOf(Unticked(options), display).isEmpty
    ensures CheckedOptions(Unticked(options)) == []
  {
    ViewMeaning(Unticked(options), display);
  }

  /**
   * After `select(v)` an option is checked iff it occurs in `v`; options,
   * their order and the length of the row are unchanged.
   */
  lemma SelectedMeaning<T>(e: seq<Entry<T>>, v: seq<T>)
    ensures OptionsOf(Selected(e, v)) == OptionsOf(e)
    ensures forall i :: 0 <= i < |e| ==> (Selected(e, v)[i].checkbox == Checked <==> e[i].option in v)
  {
  }

  /** The selection made by `select(v)` does not depend on the previous one, so selecting twice is selecting once. */
  lemma SelectReplaces<T>(e: seq<Entry<T>>, f: seq<Entry<T>>, v: seq<T>)
    requires OptionsOf(e) == OptionsOf(f)
    ensures Selected(e, v) == Selected(f, v)
    ensures Selected(Selected(e, v), v) == Selected(e, v)
  {
    assert forall i :: 0 <= i < |e| ==> e[i].option == OptionsOf(e)[i];
    assert forall i :: 0 <= i < |f| ==> f[i].option == OptionsOf(f)[i];
  }

  /** After `select(v)`, `get_selections` holds exactly the options that are both offered and in `v`. */
  lemma SelectedSelections<T>(e: seq<Entry<T>>, v: seq<T>, x: T)
    ensures x in CheckedOptions(Selected(e, v)) <==> x in OptionsOf(e) && x in v
  {
    var s := Selected(e, v);
    var idx := CheckedIndexes(s);
    if x in CheckedOptions(s) {
      var k :| 0 <= k < |idx| && CheckedOptions(s)[k] == x;
      assert OptionsOf(e)[idx[k]] == x;
    }
    if x in OptionsOf(e) && x in v {
      var i :| 0 <= i < |e| && OptionsOf(e)[i] == x;
      assert s[i].checkbox == Checked;
      var k :| 0 <= k < |idx| && idx[k] == i;
      assert CheckedOptions(s)[k] == x;
    }
  }

  /**
   * After `stringly_select(ss)` an option is checked iff its display string
   * is in `ss`; options are unchanged, and strings that match no option are
   * ignored.
   */
  lemma StringlySelectedMeaning<T>(e: seq<Entry<T>>, display: T -> string, ss: seq<string>, extra: string)
    ensures OptionsOf(StringlySelected(e, display, ss)) == OptionsOf(e)
    ensures forall i :: 0 <= i < |e| ==> (StringlySelected(e, display, ss)[i].checkbox == Checked <==> display(e[i].option) in ss)
    ensures extra !in Displays(e, display) ==> StringlySelected(e, display, ss + [extra]) == StringlySelected(e, display, ss)
  {
    if extra !in Displays(e, display) {
      forall i | 0 <= i < |e|
        ensures StringlySelected(e, display, ss + [extra])[i] == StringlySelected(e, display, ss)[i]
      {
        assert Displays(e, display)[i] == display(e[i].option);
      }
    }
  }

  /** Selecting by strings is selecting by value when every value has its own display string. */
  lemma StringlyIsSelect<T>(e: seq<Entry<T>>, display: T -> string, v: seq<T>)
    requires forall x, y :: display(x) == display(y) ==> x == y
    ensures StringlySelected(e, display, seq(|v|, k requires 0 <= k < |v| => display(v[k]))) == Selected(e, v)
  {
    var ss := seq(|v|, k requires 0 <= k < |v| => display(v[k]));
    forall i | 0 <= i < |e| ensures display(e[i].option) in ss <==> e[i].option in v {
      if display(e[i].option) in ss {
        var k :| 0 <= k < |ss| && ss[k] == display(e[i].option);
        assert v[k] == e[i].option;
      }
      if e[i].option in v {
        var k :| 0 <= k < |v| && v[k] == e[i].option;
        assert ss[k] == display(e[i].option);
      }
    }
  }

  /**
   * Confirming the pre-ticked defaults leaves the row unchanged: selecting
   * by the strings at the view's selected indexes gives the same row back,
   * provided no two options display alike.
   */
  lemma ConfirmDefaults<T>(e: seq<Entry<T>>, display: T -> string)
    requires forall i, j :: 0 <= i < j < |e| ==> display(e[i].option) != display(e[j].option)
    ensures StringlySelected(e, display, Preticked(ViewOf(e, display))) == e
  {
    var answer := Preticked(ViewOf(e, display));
    forall i | 0 <= i < |e| ensures StringlySelected(e, display, answer)[i] == e[i] {
      PretickedHas(e, display, i);
    }
  }

  /** One option's display string is among the pre-ticked strings iff the option is checked. */
  lemma PretickedHas<T>(e: seq<Entry<T>>, display: T -> string, i: nat)
    requires forall i, j :: 0 <= i < j < |e| ==> display(e[i].option) != display(e[j].option)
    requires i < |e|
    ensures display(e[i].option) in Preticked(ViewOf(e, display)) <==> e[i].checkbox == Checked
  {
    var idx := CheckedIndexes(e);
    var answer := Preticked(ViewOf(e, display));
    assert forall k :: 0 <= k < |answer| ==> answer[k] == display(e[idx[k]].option);
    if display(e[i].option) in answer {
      var k :| 0 <= k < |answer| && answer[k] == display(e[i].option);
      var j := idx[k];
      assert display(e[j].option) == display(e[i].option);
      assert j == i;
    }
    if e[i].checkbox == Checked {
      var k :| 0 <= k < |idx| && idx[k] == i;
      assert answer[k] == display(e[i].option);
    }
  }

  /**
   * An option's display string is among the selection strings iff the
   * option is selected, when no other option shares its display string.
   */
  lemma SelectionStringsHave<T>(e: seq<Entry<T>>, display: T -> string, x: T)
    requires forall y :: display(y) == display(x) ==> y == x
    ensures display(x) in CheckedStrings(e, display) <==> x in CheckedOptions(e)
  {
    var r := CheckedStrings(e, display);
    var o := CheckedOptions(e);
    if display(x) in r {
      var k :| 0 <= k < |r| && r[k] == display(x);
      assert o[k] == x;
    }
    if x in o {
      var k :| 0 <= k < |o| && o[k] == x;
      assert r[k] == display(x);
    }
  }

  /** A string no option displays as is never a selection string. */
  lemma SelectionStringsLack<T>(e: seq<Entry<T>>, display: T -> string, w: string)
    requires forall y :: display(y) != w
    ensures w !in CheckedStrings(e, display)
  {
  }

  // ------------------------------------------------------ row procedures

  /** Overwrites every checkbox of the row: checked iff the option is in `v`. */
  method SelectValues<T(==)>(entries: array<Entry<T>>, v: seq<T>)
    modifies entries
    ensures entries[..] == Selected(old(entries[..]), v)
  {
    ghost var before := entries[..];
    var i := 0;
    while i < entries.Length
      invariant 0 <= i <= entries.Length
      invariant forall k :: 0 <= k < i ==> entries[k] == Selected(before, v)[k]
      invariant forall k :: i <= k < entries.Length ==> entries[k] == before[k]
    {
      var option := entries[i].option;
      entries[i] := Entry(option, if option in v then Checked else Unchecked);
      i := i + 1;
    }
  }

  /** Overwrites every checkbox of the row: checked iff the option's display string is in `ss`. */
  method SelectStrings<T>(entries: array<Entry<T>>, display: T -> string, ss: seq<string>)
    modifies entries
    ensures entries[..] == StringlySelected(old(entries[..]), display, ss)
  {
    ghost var before := entries[..];
    var i := 0;
    while i < entries.Length
      invariant 0 <= i <= entries.Length
      invariant forall k :: 0 <= k < i ==> entries[k] == StringlySelected(before, display, ss)[k]
      invariant forall k :: i <= k < entries.Length ==> entries[k] == before[k]
    {
      var option := entries[i].option;
      entries[i] := Entry(option, if display(option) in ss then Checked else Unchecked);
      i := i + 1;
    }
  }

  /** Builds the view of a row in one pass. */
  method ViewRow<T>(entries: array<Entry<T>>, display: T -> string) returns (r: MenuView)
    ensures r == ViewOf(entries[..], display)
  {
    var isEmpty := true;
    var selected: seq<nat> := [];
    var options: seq<string> := [];
    for i := 0 to entries.Length
      invariant selected == CheckedIndexes(entries[..i])
      invariant options == Displays(entries[..i], display)
      invariant isEmpty == (selected == [])
    {
      assert entries[..i + 1][..i] == entries[..i];
      if entries[i].checkbox == Checked {
        isEmpty := false;
        selected := selected + [i];
      }
      options := options + [display(entries[i].option)];
    }
    assert entries[..entries.Length] == entries[..];
    r := MenuView(selected, options, isEmpty);
  }

  // ------------------------------------------------------------ the menus

  /** A titled multi-select menu over a fixed row of options. */
  class MultiSelectMenu<T(==)> {
    const title: string
    const display: T -> string
    const entries: array<Entry<T>>

    /** `new`: the options in the given order, none checked. */
    constructor (title: string, options: seq<T>, display: T -> string)
      ensures this.title == title && this.display == display
      ensures fresh(entries)
      ensures entries[..] == Unticked(options)
    {
      this.title := title;
      this.display := display;
      entries := new Entry<T>[|options|](i requires 0 <= i < |options| => Entry(options[i], Unchecked));
    }

    /** `select`: checks exactly the options that occur in `v`. */
    method Select(v: seq<T>)
      modifies entries
      ensures entries[..] == Selected(old(entries[..]), v)
    {
      SelectValues(entries, v);
    }

    /** `stringly_select`: checks exactly the options whose display string is in `ss`; also the effect of `interact` with the answer `ss`. */
    method StringlySelect(ss: seq<string>)
      modifies entries
      ensures entries[..] == StringlySelected(old(entries[..]), display, ss)
    {
      SelectStrings(entries, display, ss);
    }

    method View() returns (r: MenuView)
      ensures r == ViewOf(entries[..], display)
    {
      r := ViewRow(entries, display);
    }

    function GetSelections(): (r: seq<T>)
      reads entries
      ensures |r| == |CheckedIndexes(entries[..])|
      ensures forall k :: 0 <= k < |r| ==> r[k] == entries[CheckedIndexes(entries[..])[k]].option
    {
      CheckedOptions(entries[..])
    }

    function GetSelectionStrings(): (r: seq<string>)
      reads entries
      ensures |r| == |GetSelections()|
      ensures forall k :: 0 <= k < |r| ==> r[k] == display(GetSelections()[k])
    {
      CheckedStrings(entries[..], display)
    }
  }

  /** A titled single-select menu: the user picks one of the options' display strings. */
  datatype SingleSelectMenu<!T> = SingleSelectMenu(title: string, options: seq<T>, display: T -> string)
  {
    /**
     * The lookup after the prompt: the first option whose display string is
     * the chosen one. The prompt only offers those strings, so one exists.
     */
    function Choose(answer: string): (r: T)
      requires exists i :: 0 <= i < |options| && display(options[i]) == answer
      ensures display(r) == answer
      ensures exists i :: 0 <= i < |options| && options[i] == r
                          && forall j :: 0 <= j < i ==> display(options[j]) != answer
    {
      var found := Lists.FindFirst(options, display, answer);
      found.value
    }
  }
}
