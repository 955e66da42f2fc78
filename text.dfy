/** String predicates that the reporter takes from Python's `str`: `startswith`, `in`, `replace`
    with an empty replacement, and the search for a character. */
module Text {
  import opened Wrappers

  /** `s.startswith(p)`. */
  predicate StartsWith(s: string, p: string) {
    |p| <= |s| && s[..|p|] == p
  }

  /** `w` occurs in `s` starting at index `i`. */
  predicate OccursAt(s: string, w: string, i: int) {
    0 <= i && i + |w| <= |s| && forall k :: 0 <= k < |w| ==> s[i + k] == w[k]
  }

  /** `w in s`: case-sensitive substring containment. */
  predicate Contains(s: string, w: string) {
    exists i | 0 <= i <= |s| :: OccursAt(s, w, i)
  }

  /** Containment is transitive: what occurs in a part occurs in the whole. */
  lemma ContainsTransitive(s: string, t: string, w: string)
    requires Contains(s, t) && Contains(t, w)
    ensures Contains(s, w)
  {
    var i :| 0 <= i <= |s| && OccursAt(s, t, i);
    var j :| 0 <= j <= |t| && OccursAt(t, w, j);
    var u := s[i + j..i + j + |w|];
    forall k | 0 <= k < |w| ensures u[k] == w[k] {
      assert s[i..i + |t|][j + k] == t[j + k];
    }
    assert OccursAt(s, w, i + j);
  }

  /** Whether `w` occurs at `i` depends only on the characters up to `i + |w|`. */
  lemma OccursAtAgree(s: string, t: string, w: string, i: nat)
    requires i + |w| <= |t| <= |s| && forall k :: 0 <= k < |t| ==> s[k] == t[k]
    ensures OccursAt(s, w, i) <==> OccursAt(t, w, i)
  {
  }

  /** A word whose last character occurs neither in `lead` nor earlier in the word starts nowhere
      inside `lead` in `lead + w`. */
  lemma {:induction false} LastCharGuards(lead: string, w: string)
    requires w != [] && w[|w| - 1] !in lead && w[|w| - 1] !in w[..|w| - 1]
    ensures forall i :: 0 <= i < |lead| ==> !OccursAt(lead + w, w, i)
  {
  }

  /** No line break between indices `i` (inclusive) and `j` (exclusive): Python's regex `.` does
      not match '\n'. */
  ghost predicate NoBreak(s: string, i: int, j: int) {
    forall k :: i <= k < j ==> NotBreak(s, k)
  }

  /** Index `k` of `s` does not hold a line break (or lies outside `s`). */
  predicate NotBreak(s: string, k: int) {
    0 <= k < |s| ==> s[k] != '\n'
  }

  /** The first index at or after `i` that holds `c`, anywhere in `s`. */
  function IndexFrom(s: string, c: char, i: nat): (r: Option<nat>)
    requires i <= |s|
    decreases |s| - i
    ensures r.Some? ==> i <= r.value < |s| && s[r.value] == c
    ensures r.Some? ==> forall k :: i <= k < r.value ==> s[k] != c
    ensures r.None? ==> forall k :: i <= k < |s| ==> s[k] != c
  {
    if i == |s| then None
    else if s[i] == c then Some(i)
    else IndexFrom(s, c, i + 1)
  }

  /** `IndexFrom` stops at the first `c`. */
  lemma IndexFromAt(s: string, c: char, i: nat, j: nat)
    requires i <= j < |s| && s[j] == c && forall k :: i <= k < j ==> s[k] != c
    ensures IndexFrom(s, c, i) == Some(j)
  {
  }

  /** The first index at or after `i` that holds `c` on the same line: what the lazy `.*?c` of a
      Python regex reaches from `i`. */
  function FindOnLine(s: string, c: char, i: nat): (r: Option<nat>)
    requires i <= |s|
    decreases |s| - i
    ensures r.Some? ==> i <= r.value < |s| && s[r.value] == c && NoBreak(s, i, r.value)
    ensures r.Some? ==> forall k :: i <= k < r.value ==> s[k] != c
    ensures r.None? ==> forall k :: i <= k < |s| && s[k] == c ==> !NoBreak(s, i, k)
  {
    if i == |s| then None
    else if s[i] == c then Some(i)
    else if s[i] == '\n' then assert !NotBreak(s, i); None
    else FindOnLine(s, c, i + 1)
  }

  /** `FindOnLine` stops at the first `c` when nothing before it on the way is `c` or '\n'. */
  lemma {:induction false} FindOnLineAt(s: string, c: char, i: nat, j: nat)
    requires i <= j < |s| && s[j] == c
    requires forall k :: i <= k < j ==> s[k] != c && s[k] != '\n'
    ensures FindOnLine(s, c, i) == Some(j)
    decreases j - i
  {
    if i < j {
      FindOnLineAt(s, c, i + 1, j);
    }
  }

  /** `s.replace(c, "")`. */
  function RemoveChar(s: string, c: char): (r: string)
    ensures c !in r
    ensures forall d :: d in r ==> d in s
    ensures c !in s ==> r == s
  {
    if s == [] then []
    else (if s[0] == c then [] else [s[0]]) + RemoveChar(s[1..], c)
  }

  /** Removing a character works piecewise on a concatenation. */
  lemma {:induction false} RemoveCharConcat(s: string, t: string, c: char)
    ensures RemoveChar(s + t, c) == RemoveChar(s, c) + RemoveChar(t, c)
  {
    if s != [] {
      var head := if s[0] == c then [] else [s[0]];
      var u, v := RemoveChar(s[1..], c), RemoveChar(t, c);
      assert (s + t)[1..] == s[1..] + t;
      RemoveCharConcat(s[1..], t, c);
      AppendAssoc(head, u, v);
    } else {
      assert s + t == t;
    }
  }

  /** Concatenation is associative. */
  lemma AppendAssoc<T>(a: seq<T>, b: seq<T>, c: seq<T>)
    ensures a + (b + c) == (a + b) + c
  {
  }
}
