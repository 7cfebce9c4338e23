/** Small facts about sequences that the catalogue lemmas share. */
module Lists {

  datatype Option<T> = None | Some(value: T)

  /** A conversion that either succeeds or fails with an `InvalidInput` error and its message. */
  datatype Result<T> = Ok(value: T) | InvalidInput(message: string)

  /**
   * The first element of `s` whose `key` is `want`, as an iterator's `find`
   * returns it: `None` when no element has that key.
   */
  function FindFirst<T>(s: seq<T>, key: T -> string, want: string): (r: Option<T>)
    ensures r.None? <==> forall i :: 0 <= i < |s| ==> key(s[i]) != want
    ensures r.Some? ==> exists i :: 0 <= i < |s| && s[i] == r.value && key(s[i]) == want
                                    && forall j :: 0 <= j < i ==> key(s[j]) != want
    decreases |s|
  {
    if s == [] then None
    else if key(s[0]) == want then Some(s[0])
    else
      var r := FindFirst(s[1..], key, want);
      assert forall i :: 1 <= i < |s| ==> s[i] == s[1..][i - 1];
      r
  }

  /** No element occurs twice; written recursively so that it can be evaluated on literal lists. */
  predicate NoDup<T(==)>(s: seq<T>)
    decreases |s|
  {
    |s| == 0 || (s[0] !in s[1..] && NoDup(s[1..]))
  }

  /** A duplicate-free list has pairwise distinct positions. */
  lemma {:induction false} NoDupDistinct<T>(s: seq<T>)
    requires NoDup(s)
    ensures forall i, j :: 0 <= i < j < |s| ==> s[i] != s[j]
    decreases |s|
  {
    if |s| > 0 {
      NoDupDistinct(s[1..]);
      forall i, j | 0 <= i < j < |s| ensures s[i] != s[j] {
        if i == 0 {
          assert s[j] == s[1..][j - 1];
        } else {
          assert s[i] == s[1..][i - 1] && s[j] == s[1..][j - 1];
        }
      }
    }
  }

  /** Number of occurrences of `x` in `s`, counted from the end as a loop would. */
  function Count<T(==)>(s: seq<T>, x: T): nat
    decreases |s|
  {
    if s == [] then 0 else Count(s[..|s| - 1], x) + (if s[|s| - 1] == x then 1 else 0)
  }

  /** A value is counted at least once iff it occurs. */
  lemma {:induction false} CountPositive<T>(s: seq<T>, x: T)
    ensures Count(s, x) > 0 <==> x in s
    decreases |s|
  {
    if s != [] {
      var front := s[..|s| - 1];
      CountPositive(front, x);
      assert s == front + [s[|s| - 1]];
    }
  }

  /** In a duplicate-free list every element occurs exactly once and every other value never. */
  lemma {:induction false} CountNoDup<T>(s: seq<T>, x: T)
    requires NoDup(s)
    ensures Count(s, x) == if x in s then 1 else 0
    decreases |s|
  {
    if s != [] {
      NoDupDistinct(s);
      var front := s[..|s| - 1];
      assert NoDup(front) by { NoDupPrefix(s, |s| - 1); }
      CountNoDup(front, x);
      assert s == front + [s[|s| - 1]];
      if s[|s| - 1] == x {
        assert x !in front by {
          forall k | 0 <= k < |front| ensures front[k] != x {
            assert front[k] == s[k];
          }
        }
      }
    }
  }

  /** A prefix of a duplicate-free list is duplicate-free. */
  lemma {:induction false} NoDupPrefix<T>(s: seq<T>, n: nat)
    requires NoDup(s) && n <= |s|
    ensures NoDup(s[..n])
    decreases |s|
  {
    if n > 0 {
      NoDupPrefix(s[1..], n - 1);
      assert s[..n][1..] == s[1..][..n - 1];
      assert s[0] !in s[..n][1..] by {
        forall k | 0 <= k < n - 1 ensures s[..n][1..][k] != s[0] {
          assert s[..n][1..][k] == s[1..][k];
        }
      }
    }
  }

  /** Two duplicate-free lists with no common element concatenate to a duplicate-free list. */
  lemma {:induction false} NoDupConcat<T>(a: seq<T>, b: seq<T>)
    requires NoDup(a) && NoDup(b)
    requires forall x :: x in a ==> x !in b
    ensures NoDup(a + b)
    decreases |a|
  {
    if a != [] {
      assert (a + b)[1..] == a[1..] + b;
      NoDupConcat(a[1..], b);
    } else {
      assert a + b == b;
    }
  }

  /** Appending a block after a prefix, regrouped: used when a loop emits one block per step. */
  lemma Regroup<T>(before: seq<T>, opening: seq<T>, block: seq<T>, rest: seq<T>)
    ensures before + opening + block + rest == before + (opening + block + rest)
  {
  }
}
