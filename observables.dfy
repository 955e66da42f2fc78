/** The source's `ObservableObject`: its identity (`__eq__`), its order (`__lt__`), and the
    `sorted(...)` that turns each category's collection into a list. */
module Observables {

  /** One fact read off one trace line: the normalized `name`, the container id of the line, the
      whole line (`command`, exported as "full_output") and the line's first 31 characters. */
  datatype Observable = Observable(name: string, containerId: string, command: string, timestamp: string)

  /** `__eq__`: two observables are the same when name and container id agree; the line and the
      timestamp are provenance only. */
  predicate Same(a: Observable, b: Observable) {
    a.name == b.name && a.containerId == b.containerId
  }

  /** Python's `<` on `str`: lexicographic by code point, a proper prefix before its extensions. */
  predicate StrLess(a: string, b: string)
    decreases |a|
  {
    |b| > 0 && (|a| == 0 || a[0] < b[0] || (a[0] == b[0] && StrLess(a[1..], b[1..])))
  }

  /** `__lt__`: observables are ordered by name alone. */
  predicate Less(a: Observable, b: Observable) {
    StrLess(a.name, b.name)
  }

  lemma {:induction false} StrLessIrreflexive(a: string)
    ensures !StrLess(a, a)
    decreases |a|
  {
    if |a| > 0 {
      StrLessIrreflexive(a[1..]);
    }
  }

  lemma {:induction false} StrLessTransitive(a: string, b: string, c: string)
    requires StrLess(a, b) && StrLess(b, c)
    ensures StrLess(a, c)
    decreases |a|
  {
    if |a| > 0 && a[0] == b[0] && b[0] == c[0] {
      StrLessTransitive(a[1..], b[1..], c[1..]);
    }
  }

  /** Any two different strings are ordered one way or the other, and never both ways. */
  lemma {:induction false} StrLessTotal(a: string, b: string)
    ensures a == b || StrLess(a, b) || StrLess(b, a)
    ensures !(StrLess(a, b) && StrLess(b, a))
    decreases |a|
  {
    if |a| > 0 && |b| > 0 && a[0] == b[0] {
      StrLessTotal(a[1..], b[1..]);
      if a[1..] == b[1..] {
        assert a == [a[0]] + a[1..] && b == [b[0]] + b[1..];
      }
    }
  }

  /** Names never decrease along `s`: what `sorted()` with `__lt__` promises. */
  predicate SortedByName(s: seq<Observable>) {
    forall i, j :: 0 <= i < j < |s| ==> !Less(s[j], s[i])
  }

  /** No two elements of `s` are the same observable under `__eq__`. */
  predicate Distinct(s: seq<Observable>) {
    forall i, j :: 0 <= i < j < |s| ==> !Same(s[i], s[j])
  }

  /** Inserts `x` into `s` after every element whose name is not greater than its own. */
  function InsertByName(x: Observable, s: seq<Observable>): (r: seq<Observable>)
    ensures multiset(r) == multiset(s) + multiset{x}
  {
    if s == [] then [x]
    else if Less(x, s[0]) then [x] + s
    else
      assert s == [s[0]] + s[1..];
      [s[0]] + InsertByName(x, s[1..])
  }

  /** Every element of `InsertByName(x, s)` is `x` or an element of `s`. */
  lemma InsertByNameElements(x: Observable, s: seq<Observable>, y: Observable)
    requires y in InsertByName(x, s)
    ensures y == x || y in s
  {
    assert y in multiset(InsertByName(x, s));
  }

  lemma {:induction false} InsertByNameSorted(x: Observable, s: seq<Observable>)
    requires SortedByName(s)
    ensures SortedByName(InsertByName(x, s))
  {
    if s == [] {
    } else if Less(x, s[0]) {
      forall j | 0 <= j < |s| ensures !Less(s[j], x) {
        StrLessTotal(x.name, s[0].name);
        StrLessTotal(s[0].name, s[j].name);
        StrLessTotal(x.name, s[j].name);
        if StrLess(s[0].name, s[j].name) {
          StrLessTransitive(x.name, s[0].name, s[j].name);
        }
      }
    } else {
      var t := InsertByName(x, s[1..]);
      InsertByNameSorted(x, s[1..]);
      forall j | 0 <= j < |t| ensures !Less(t[j], s[0]) {
        InsertByNameElements(x, s[1..], t[j]);
      }
    }
  }

  lemma {:induction false} InsertByNameDistinct(x: Observable, s: seq<Observable>)
    requires Distinct(s) && forall y :: y in s ==> !Same(x, y)
    ensures Distinct(InsertByName(x, s))
  {
    if s != [] && !Less(x, s[0]) {
      var t := InsertByName(x, s[1..]);
      InsertByNameDistinct(x, s[1..]);
      forall j | 0 <= j < |t| ensures !Same(s[0], t[j]) {
        InsertByNameElements(x, s[1..], t[j]);
        if t[j] == x {
          assert s[0] in s;
        } else {
          var k :| 0 <= k < |s[1..]| && s[1..][k] == t[j];
          assert s[k + 1] == t[j];
        }
      }
    }
  }

  /** `sorted(...)`: a stable insertion sort by name; the result is a permutation of the input. */
  function SortByName(s: seq<Observable>): (r: seq<Observable>)
    ensures multiset(r) == multiset(s)
  {
    if s == [] then []
    else
      assert s == s[..|s| - 1] + [s[|s| - 1]];
      InsertByName(s[|s| - 1], SortByName(s[..|s| - 1]))
  }

  /** The sorted list is ordered by name, and a list without duplicates stays without them. */
  lemma {:induction false} SortByNameSortedDistinct(s: seq<Observable>)
    ensures SortedByName(SortByName(s))
    ensures Distinct(s) ==> Distinct(SortByName(s))
  {
    if s != [] {
      var init, last := s[..|s| - 1], s[|s| - 1];
      var t := SortByName(init);
      SortByNameSortedDistinct(init);
      InsertByNameSorted(last, t);
      if Distinct(s) {
        forall y | y in t ensures !Same(last, y) {
          assert y in multiset(init);
          var k :| 0 <= k < |init| && init[k] == y;
          assert s[k] == y;
        }
        InsertByNameDistinct(last, t);
      }
    }
  }
}
