/**
 * The string helpers of the crate root: `titleize` and `pascalize`, which
 * turn enum variant names into display strings and back, and `pluralize`,
 * the "a, b, or c" joiner used to render one recipe slot.
 *
 * `titleize` and `pascalize` delegate to a case-conversion library; that
 * library is modelled here as a character-level word splitter (words end at
 * a space, `_` or `-`, and a new word starts where an upper-case letter
 * follows a lower-case one), restricted to ASCII letters. Variant names are
 * given as their list of words, so that the identifier is the words written
 * together and the title is the words separated by single spaces.
 */
module Text {

  predicate IsUpper(c: char) { 'A' <= c <= 'Z' }
  predicate IsLower(c: char) { 'a' <= c <= 'z' }
  predicate IsSeparator(c: char) { c == ' ' || c == '_' || c == '-' }

  function ToUpper(c: char): char { if IsLower(c) then (c as int - 32) as char else c }
  function ToLower(c: char): char { if IsUpper(c) then (c as int + 32) as char else c }

  /** What the word splitter has just seen. */
  datatype Prev = AtBoundary | AfterLower | AfterOther

  /**
   * Rewrites `s` word by word: every word is written with an upper-case
   * first letter and lower-case rest, and consecutive words are joined by
   * `glue`. `started` records whether a word has been written already.
   */
  function Recase(s: string, glue: string, prev: Prev, started: bool): string
    decreases |s|
  {
    if s == [] then []
    else
      var c := s[0];
      if IsSeparator(c) then Recase(s[1..], glue, AtBoundary, started)
      else
        var startsWord := prev == AtBoundary || (prev == AfterLower && IsUpper(c));
        var out := if startsWord then (if started then glue else []) + [ToUpper(c)] else [ToLower(c)];
        out + Recase(s[1..], glue, if IsLower(c) then AfterLower else AfterOther, true)
  }

  /** `titleize`: title case, words separated by one space ("PickledGoods" -> "Pickled Goods"). */
  function Titleize(name: string): string { Recase(name, " ", AtBoundary, false) }

  /** `pascalize`: upper camel case, words joined with nothing ("pickled goods" -> "PickledGoods"). */
  function Pascalize(text: string): string { Recase(text, "", AtBoundary, false) }

  /** `words` written one after another with `sep` between neighbours. */
  function Join(words: seq<string>, sep: string): string
    decreases |words|
  {
    if words == [] then ""
    else if |words| == 1 then words[0]
    else words[0] + sep + Join(words[1..], sep)
  }

  /** A capitalised word of a variant name: an upper-case letter followed by at least one lower-case letter. */
  predicate IsWord(w: string) {
    |w| >= 2 && IsUpper(w[0]) && forall i :: 1 <= i < |w| ==> IsLower(w[i])
  }

  predicate AllWords(words: seq<string>) {
    forall k :: 0 <= k < |words| ==> IsWord(words[k])
  }

  /** The PascalCase identifier made of `words` ("Pickled", "Goods" -> "PickledGoods"). */
  function Identifier(words: seq<string>): string { Join(words, "") }

  /** The same words separated by single spaces ("Pickled Goods"). */
  function Title(words: seq<string>): string { Join(words, " ") }

  /** A run of lower-case letters continues the current word unchanged. */
  lemma {:induction false} RecaseLowers(t: string, s: string, glue: string, prev: Prev)
    requires forall i :: 0 <= i < |t| ==> IsLower(t[i])
    requires t != [] ==> prev != AtBoundary
    ensures Recase(t + s, glue, prev, true) == t + Recase(s, glue, if t == [] then prev else AfterLower, true)
    decreases |t|
  {
    if t != [] {
      var c := t[0];
      assert (t + s)[0] == c && IsLower(c) && ToLower(c) == c;
      assert (t + s)[1..] == t[1..] + s;
      assert Recase(t + s, glue, prev, true) == [c] + Recase(t[1..] + s, glue, AfterLower, true);
      RecaseLowers(t[1..], s, glue, AfterLower);
      var tail := Recase(s, glue, AfterLower, true);
      assert [c] + (t[1..] + tail) == ([c] + t[1..]) + tail;
      assert t == [c] + t[1..];
    } else {
      assert t + s == s;
    }
  }

  /** A capitalised word at a word boundary is written out unchanged, preceded by the glue if a word came before. */
  lemma RecaseWord(w: string, s: string, glue: string, prev: Prev, started: bool)
    requires IsWord(w)
    requires prev == AtBoundary || prev == AfterLower
    ensures Recase(w + s, glue, prev, started) == (if started then glue else []) + w + Recase(s, glue, AfterLower, true)
  {
    var c := w[0];
    assert (w + s)[0] == c && IsUpper(c) && ToUpper(c) == c;
    assert (w + s)[1..] == w[1..] + s;
    assert Recase(w + s, glue, prev, started) == (if started then glue else []) + [c] + Recase(w[1..] + s, glue, AfterOther, true);
    RecaseLowers(w[1..], s, glue, AfterOther);
    assert w == [c] + w[1..];
  }

  lemma AllWordsTail(words: seq<string>)
    requires words != [] && AllWords(words)
    ensures AllWords(words[1..])
  {
    forall k | 0 <= k < |words[1..]| ensures IsWord(words[1..][k]) {
      assert words[1..][k] == words[k + 1];
    }
  }

  /** One step of `RecaseJoin`: the first word, the separator, then the rest. */
  lemma RecaseJoinStep(words: seq<string>, sep: string, glue: string, prev: Prev, started: bool)
    requires |words| >= 2 && AllWords(words)
    requires sep == "" || sep == " "
    requires prev == AtBoundary || prev == AfterLower
    ensures Recase(Join(words, sep), glue, prev, started)
         == (if started then glue else []) + words[0] + Recase(Join(words[1..], sep), glue, if sep == "" then AfterLower else AtBoundary, true)
  {
    var rest := Join(words[1..], sep);
    assert Join(words, sep) == words[0] + (sep + rest);
    RecaseWord(words[0], sep + rest, glue, prev, started);
    if sep == " " {
      assert (sep + rest)[0] == ' ';
      assert (sep + rest)[1..] == rest;
    } else {
      assert sep + rest == rest;
    }
  }

  /**
   * Re-casing words separated by nothing or by one space yields the same
   * words joined by `glue`.
   */
  lemma {:induction false} RecaseJoin(words: seq<string>, sep: string, glue: string, prev: Prev, started: bool)
    requires AllWords(words)
    requires sep == "" || sep == " "
    requires prev == AtBoundary || prev == AfterLower
    ensures Recase(Join(words, sep), glue, prev, started) == (if started && words != [] then glue else []) + Join(words, glue)
    decreases |words|
  {
    if |words| == 1 {
      RecaseWord(words[0], "", glue, prev, started);
      assert words[0] + "" == words[0];
    } else if |words| >= 2 {
      RecaseJoinStep(words, sep, glue, prev, started);
      AllWordsTail(words);
      RecaseJoin(words[1..], sep, glue, if sep == "" then AfterLower else AtBoundary, true);
    }
  }

  /** `titleize` of a PascalCase identifier separates its words by single spaces. */
  lemma TitleizeIdentifier(words: seq<string>)
    requires AllWords(words)
    ensures Titleize(Identifier(words)) == Title(words)
  {
    RecaseJoin(words, "", " ", AtBoundary, false);
  }

  /** `pascalize` of a title writes its words together again. */
  lemma PascalizeTitle(words: seq<string>)
    requires AllWords(words)
    ensures Pascalize(Title(words)) == Identifier(words)
  {
    RecaseJoin(words, " ", "", AtBoundary, false);
  }

  /** `pascalize` undoes `titleize` on every PascalCase identifier (species lookup relies on this). */
  lemma PascalizeTitleize(words: seq<string>)
    requires AllWords(words)
    ensures Pascalize(Titleize(Identifier(words))) == Identifier(words)
  {
    TitleizeIdentifier(words);
    PascalizeTitle(words);
  }

  /** An identifier starts with its first word, and what follows is the identifier of the other words. */
  lemma IdentifierHead(words: seq<string>)
    requires words != [] && AllWords(words)
    ensures Identifier(words) == words[0] + Identifier(words[1..])
    ensures |words| > 1 ==> |Identifier(words[1..])| > 0 && Identifier(words[1..])[0] == words[1][0]
  {
    if |words| == 1 {
      assert words[0] + "" == words[0];
    } else {
      assert Join(words, "") == words[0] + "" + Join(words[1..], "");
      assert words[0] + "" == words[0];
      if |words| > 2 {
        assert words[1..][1..] == words[2..];
        assert Join(words[1..], "") == words[1] + "" + Join(words[2..], "");
      }
    }
  }

  /** Inside the first word of an identifier every letter after the first is lower-case, and the next word starts with a capital. */
  lemma FirstWordEnds(words: seq<string>)
    requires words != [] && AllWords(words)
    ensures forall i :: 1 <= i < |words[0]| ==> IsLower(Identifier(words)[i])
    ensures |Identifier(words)| == |words[0]| || IsUpper(Identifier(words)[|words[0]|])
  {
    IdentifierHead(words);
    assert IsWord(words[0]);
    if |words| > 1 {
      assert IsWord(words[1]);
    }
  }

  /** Two word lists with the same identifier are the same list: a new word begins exactly at each capital. */
  lemma {:induction false} IdentifierInjective(a: seq<string>, b: seq<string>)
    requires AllWords(a) && AllWords(b)
    requires Identifier(a) == Identifier(b)
    ensures a == b
    decreases |a|
  {
    if a == [] || b == [] {
      if a != [] { IdentifierHead(a); }
      if b != [] { IdentifierHead(b); }
    } else {
      IdentifierHead(a);
      IdentifierHead(b);
      FirstWordEnds(a);
      FirstWordEnds(b);
      var s := Identifier(a);
      var x, y := a[0], b[0];
      assert |x| == |y|;
      assert x == s[..|x|] == y;
      assert Identifier(a[1..]) == s[|x|..] == Identifier(b[1..]);
      AllWordsTail(a);
      AllWordsTail(b);
      IdentifierInjective(a[1..], b[1..]);
      assert a == [x] + a[1..];
      assert b == [y] + b[1..];
    }
  }

  /** Two PascalCase identifiers with the same title have the same words. */
  lemma TitleInjective(a: seq<string>, b: seq<string>)
    requires AllWords(a) && AllWords(b)
    ensures Titleize(Identifier(a)) == Titleize(Identifier(b)) <==> a == b
  {
    if Titleize(Identifier(a)) == Titleize(Identifier(b)) {
      PascalizeTitleize(a);
      PascalizeTitleize(b);
      IdentifierInjective(a, b);
    }
  }

  /** Joining a list extended at the end appends the separator and the new last item. */
  lemma {:induction false} JoinSnoc(items: seq<string>, last: string, sep: string)
    requires items != []
    ensures Join(items + [last], sep) == Join(items, sep) + sep + last
    decreases |items|
  {
    var all := items + [last];
    assert all[0] == items[0];
    if |items| == 1 {
      assert all[1..] == [last];
    } else {
      assert all[1..] == items[1..] + [last];
      JoinSnoc(items[1..], last, sep);
    }
  }

  /**
   * `pluralize`: "None" for no items, the item itself for one, "a w b" for
   * two, and "a, b, w c" (all but the last joined by ", ", then ", w last")
   * for three or more.
   */
  function Pluralize(items: seq<string>, word: string): (r: string)
    ensures |items| == 0 ==> r == "None"
    ensures |items| == 1 ==> r == items[0]
    ensures |items| == 2 ==> r == items[0] + " " + word + " " + items[1]
    ensures |items| >= 3 ==> r == Join(items[..|items| - 1], ", ") + ", " + word + " " + items[|items| - 1]
  {
    match |items|
    case 0 => "None"
    case 1 => items[0]
    case 2 => items[0] + " " + word + " " + items[1]
    case _ => Join(items[..|items| - 1], ", ") + ", " + word + " " + items[|items| - 1]
  }

  /** For three or more items the result is every item, comma separated, with the word before the last. */
  lemma PluralizeListsEveryItem(items: seq<string>, word: string)
    requires |items| >= 3
    ensures Pluralize(items, word) == Join(items[..|items| - 1] + [word + " " + items[|items| - 1]], ", ")
  {
    JoinSnoc(items[..|items| - 1], word + " " + items[|items| - 1], ", ");
  }

  lemma PluralizeExamples()
    ensures Pluralize([], "or") == "None"
    ensures Pluralize(["Wood"], "or") == "Wood"
    ensures Pluralize(["Clay", "Stones"], "or") == "Clay or Stones"
    ensures Pluralize(["Wood", "Oil", "Coal"], "or") == "Wood, Oil, or Coal"
  {
    assert ["Wood", "Oil", "Coal"][..2] == ["Wood", "Oil"];
    assert ["Wood", "Oil"][1..] == ["Oil"];
  }

  lemma TitleExample()
    ensures Titleize(Identifier(["Pickled", "Goods"])) == "Pickled Goods"
  {
    TitleizeIdentifier(["Pickled", "Goods"]);
    assert ["Pickled", "Goods"][1..] == ["Goods"];
  }
}
