/**
 * Array.prototype.filter on sequences, and the facts about it that the list
 * query and the statistics rest on.
 */
module Seqs {

  /** The elements of `s` that satisfy `f`, in their original order. */
  function Keep<T>(s: seq<T>, f: T -> bool): (r: seq<T>)
    ensures |r| <= |s|
    ensures forall x | x in r :: x in s && f(x)
    ensures forall x | x in s && f(x) :: x in r
  {
    if s == [] then [] else (if f(s[0]) then [s[0]] else []) + Keep(s[1..], f)
  }

  /** Filtering distributes over concatenation: the kept elements of `a`
      come first, in their order, then those of `b`. */
  lemma {:induction false} KeepAppend<T>(a: seq<T>, b: seq<T>, f: T -> bool)
    ensures Keep(a + b, f) == Keep(a, f) + Keep(b, f)
  {
    if a == [] {
      assert a + b == b;
    } else {
      assert (a + b)[1..] == a[1..] + b;
      KeepAppend(a[1..], b, f);
    }
  }

  /** Two tests that agree on every element keep the same elements. */
  lemma {:induction false} KeepAgreeing<T>(s: seq<T>, f: T -> bool, g: T -> bool)
    requires forall x :: x in s ==> f(x) == g(x)
    ensures Keep(s, f) == Keep(s, g)
  {
    if s != [] {
      KeepAgreeing(s[1..], f, g);
    }
  }

  /** A test every element passes keeps the whole sequence. */
  lemma {:induction false} KeepEverything<T>(s: seq<T>, f: T -> bool)
    requires forall x :: x in s ==> f(x)
    ensures Keep(s, f) == s
  {
    if s != [] {
      KeepEverything(s[1..], f);
    }
  }

  /** Filtering by `f` and then by `g` is filtering once by their
      conjunction `h`. */
  lemma {:induction false} KeepTwice<T>(s: seq<T>, f: T -> bool, g: T -> bool, h: T -> bool)
    requires forall x :: x in s ==> h(x) == (f(x) && g(x))
    ensures Keep(Keep(s, f), g) == Keep(s, h)
  {
    if s != [] {
      KeepTwice(s[1..], f, g, h);
      var head := if f(s[0]) then [s[0]] else [];
      KeepAppend(head, Keep(s[1..], f), g);
      if f(s[0]) {
        assert Keep(head, g) == (if g(s[0]) then [s[0]] else []) + Keep([], g);
      }
    }
  }

  /** No element occurs twice. */
  predicate Distinct<T(==)>(s: seq<T>) {
    forall i, j :: 0 <= i < j < |s| ==> s[i] != s[j]
  }

  /** Filtering a sequence without repeats gives one without repeats. */
  lemma {:induction false} KeepDistinct<T>(s: seq<T>, f: T -> bool)
    requires Distinct(s)
    ensures Distinct(Keep(s, f))
  {
    if s != [] {
      assert Distinct(s[1..]) by {
        forall i, j | 0 <= i < j < |s[1..]| ensures s[1..][i] != s[1..][j] {
          assert s[1..][i] == s[i + 1] && s[1..][j] == s[j + 1];
        }
      }
      KeepDistinct(s[1..], f);
      var rest := Keep(s[1..], f);
      if f(s[0]) {
        assert s[0] !in rest;
        var r := [s[0]] + rest;
        forall i, j | 0 <= i < j < |r| ensures r[i] != r[j] {
          if i == 0 {
            assert r[j] == rest[j - 1];
          } else {
            assert r[i] == rest[i - 1] && r[j] == rest[j - 1];
          }
        }
      } else {
        assert Keep(s, f) == rest;
      }
    }
  }
}
