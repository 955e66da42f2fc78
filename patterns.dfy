/** The extraction patterns of the classifier table, read with `re.findall`. The delimited ones
    are scanned here; the others stay outside the model as extractors passed in. */
module Patterns {
  import opened Wrappers
  import opened Text

  /** An extraction pattern. `Delimited(prefix, skip, open, close)` is the regex
      `prefix.*?open(.*?)close` when `skip` holds and `prefix open(.*?)close` otherwise, with
      `prefix` taken literally; `Single(id)` and `Pair(id)` are regexes with one and two groups
      whose matches an `Extractors` value supplies. */
  datatype Pattern =
    | Delimited(prefix: string, skip: bool, open: char, close: char)
    | Single(id: nat)
    | Pair(id: nat)

  /** What `re.findall` yields per match: the group, or the tuple of both groups. */
  datatype Capture = One(value: string) | Two(first: string, second: string)

  /** The matches of the patterns that are not scanned here, per pattern id and line. */
  datatype Extractors = Extractors(one: (nat, string) -> seq<string>, two: (nat, string) -> seq<(string, string)>)

  /** Index of the opening delimiter of a match whose prefix ends at `after`. */
  function OpenFrom(s: string, p: Pattern, after: nat): (r: Option<nat>)
    requires p.Delimited? && after <= |s|
    ensures r.Some? ==> after <= r.value < |s| && s[r.value] == p.open
  {
    if p.skip then FindOnLine(s, p.open, after)
    else if after < |s| && s[after] == p.open then Some(after)
    else None
  }

  /** The match of a delimited pattern at index `at`, as the span of its group. The lazy group ends
      at the first closing delimiter on the line; when that fails for the first opening delimiter
      it fails for every later one, so backtracking finds nothing more. */
  function MatchAt(s: string, p: Pattern, at: nat): (r: Option<(nat, nat)>)
    requires p.Delimited? && at <= |s|
    ensures r.Some? ==> OccursAt(s, p.prefix, at) && at + |p.prefix| < r.value.0 <= r.value.1 < |s|
    ensures r.Some? ==> s[r.value.0 - 1] == p.open && s[r.value.1] == p.close
    ensures r.Some? ==> NoBreak(s, r.value.0, r.value.1)
    ensures r.Some? ==> forall k :: r.value.0 <= k < r.value.1 ==> s[k] != p.close
  {
    if !OccursAt(s, p.prefix, at) then None
    else
      match OpenFrom(s, p, at + |p.prefix|)
      case None => None
      case Some(o) =>
        match FindOnLine(s, p.close, o + 1)
        case None => None
        case Some(c) => Some((o + 1, c))
  }

  /** `re.findall` from index `at`: after a match the search resumes behind it, after a failure one
      character further. */
  function FindAllFrom(s: string, p: Pattern, at: nat): (r: seq<string>)
    requires p.Delimited? && at <= |s|
    decreases |s| - at
    ensures forall i :: 0 <= i < |r| ==> p.close !in r[i] && '\n' !in r[i]
    ensures r != [] ==> Contains(s, p.prefix)
  {
    if at == |s| then []
    else
      match MatchAt(s, p, at)
      case Some((g, c)) =>
        assert '\n' !in s[g..c] && p.close !in s[g..c] by {
          forall k | 0 <= k < c - g ensures s[g..c][k] != '\n' && s[g..c][k] != p.close {
            assert s[g..c][k] == s[g + k] && NotBreak(s, g + k);
          }
        }
        assert OccursAt(s, p.prefix, at);
        [s[g..c]] + FindAllFrom(s, p, c + 1)
      case None => FindAllFrom(s, p, at + 1)
  }

  /** `re.findall(pattern, line)` for a delimited pattern. */
  function FindAll(s: string, p: Pattern): (r: seq<string>)
    requires p.Delimited?
    ensures forall i :: 0 <= i < |r| ==> p.close !in r[i] && '\n' !in r[i]
    ensures r != [] ==> Contains(s, p.prefix)
  {
    FindAllFrom(s, p, 0)
  }

  /** Where a match of a delimited pattern lies: its prefix starts at `start`, its group runs from
      `group` (just behind the opening delimiter) up to `end`, where the closing delimiter is. */
  datatype Span = Span(start: nat, group: nat, end: nat)

  /** `m` is a match of the regex of `p` in `s`: the prefix at `m.start`, then (when the pattern
      skips) characters other than '\n', the opening delimiter at `m.group - 1`, a group without
      '\n', and the closing delimiter at `m.end`. */
  ghost predicate IsMatch(s: string, p: Pattern, m: Span) {
    p.Delimited? && OccursAt(s, p.prefix, m.start) && m.start + |p.prefix| < m.group <= m.end < |s|
    && s[m.group - 1] == p.open && s[m.end] == p.close && NoBreak(s, m.group, m.end)
    && (if p.skip then NoBreak(s, m.start + |p.prefix|, m.group - 1) else m.group == m.start + |p.prefix| + 1)
  }

  /** `m` comes no later than `m'` in the order in which the regex engine tries matches: the
      leftmost start, then the shortest lazy skip, then the shortest lazy group. */
  ghost predicate Precedes(m: Span, m': Span) {
    m.start < m'.start || (m.start == m'.start && (m.group < m'.group || (m.group == m'.group && m.end <= m'.end)))
  }

  /** `MatchAt` fails exactly where no match starts, and otherwise finds the match the regex engine
      tries first among those starting there. */
  lemma MatchAtIsFirst(s: string, p: Pattern, at: nat)
    requires p.Delimited? && at <= |s|
    ensures MatchAt(s, p, at).None? <==> forall m: Span :: m.start == at ==> !IsMatch(s, p, m)
    ensures MatchAt(s, p, at).Some? ==> (var (g, c) := MatchAt(s, p, at).value;
      IsMatch(s, p, Span(at, g, c)) && forall m: Span :: m.start == at && IsMatch(s, p, m) ==> Precedes(Span(at, g, c), m))
  {
    forall m: Span | m.start == at && IsMatch(s, p, m)
      ensures MatchAt(s, p, at).Some? && Precedes(Span(at, MatchAt(s, p, at).value.0, MatchAt(s, p, at).value.1), m)
    {
      MatchAtDominates(s, p, m);
    }
    if MatchAt(s, p, at).Some? {
      MatchAtIsMatch(s, p, at);
    }
  }

  /** What `MatchAt` finds is a match. */
  lemma MatchAtIsMatch(s: string, p: Pattern, at: nat)
    requires p.Delimited? && at <= |s| && MatchAt(s, p, at).Some?
    ensures IsMatch(s, p, Span(at, MatchAt(s, p, at).value.0, MatchAt(s, p, at).value.1))
  {
    var o := OpenFrom(s, p, at + |p.prefix|).value;
    if p.skip {
      assert NoBreak(s, at + |p.prefix|, o);
    }
  }

  /** Every match is found by `MatchAt` at its start, and the one found comes no later. When the
      group fails after the first opening delimiter on the line, it fails after every later one. */
  lemma {:induction false} MatchAtDominates(s: string, p: Pattern, m: Span)
    requires IsMatch(s, p, m)
    ensures MatchAt(s, p, m.start).Some?
    ensures var (g, c) := MatchAt(s, p, m.start).value; Precedes(Span(m.start, g, c), m)
  {
    var after := m.start + |p.prefix|;
    var o := OpenFrom(s, p, after);
    if p.skip {
      assert s[m.group - 1] == p.open && NoBreak(s, after, m.group - 1);
    }
    var d := o.value;
    assert d <= m.group - 1;
    forall k | d + 1 <= k < m.end ensures NotBreak(s, k) {
      if k < m.group - 1 {
        assert NotBreak(s, k);
      } else if k == m.group - 1 {
        assert NotBreak(s, d);
      }
    }
    FindOnLineReaches(s, p.close, d + 1, m.end);
  }

  /** The lazy search for `c` from `i` stops no later than any `c` on the same line. */
  lemma FindOnLineReaches(s: string, c: char, i: nat, j: nat)
    requires i <= j < |s| && s[j] == c && NoBreak(s, i, j)
    ensures FindOnLine(s, c, i).Some? && FindOnLine(s, c, i).value <= j
  {
  }

  /** `m` is the match the regex engine finds first when it searches from `at`. */
  ghost predicate FirstMatchFrom(s: string, p: Pattern, at: nat, m: Span) {
    at <= m.start && IsMatch(s, p, m) && forall m': Span :: at <= m'.start && IsMatch(s, p, m') ==> Precedes(m, m')
  }

  /** `re.findall` from `at` finds nothing exactly when no match starts at or after `at`. Otherwise
      its first capture is the group of the match the regex engine finds first, and the search
      resumes behind that match, so the matches found are the successive leftmost ones that do not
      overlap. */
  lemma {:induction false} FindAllFromIsFirstMatch(s: string, p: Pattern, at: nat)
    requires p.Delimited? && at <= |s|
    decreases |s| - at
    ensures FindAllFromFirst(s, p, at)
  {
    if at == |s| {
      NothingAtEnd(s, p);
    } else if MatchAt(s, p, at).Some? {
      FirstMatchHere(s, p, at);
    } else {
      FindAllFromIsFirstMatch(s, p, at + 1);
      NoMatchHere(s, p, at);
    }
  }

  /** What `FindAllFromIsFirstMatch` states about the search from `at`. */
  ghost predicate FindAllFromFirst(s: string, p: Pattern, at: nat)
    requires p.Delimited? && at <= |s|
  {
    && (FindAllFrom(s, p, at) == [] <==> forall m: Span :: at <= m.start ==> !IsMatch(s, p, m))
    && (FindAllFrom(s, p, at) != [] ==> exists m: Span :: CapturesFirst(s, p, at, m))
  }

  /** `m` is the first match from `at`, and `re.findall` from `at` captures its group and then
      resumes behind it. */
  ghost predicate CapturesFirst(s: string, p: Pattern, at: nat, m: Span)
    requires p.Delimited? && at <= |s|
  {
    FirstMatchFrom(s, p, at, m) && FindAllFrom(s, p, at) == [s[m.group..m.end]] + FindAllFrom(s, p, m.end + 1)
  }

  /** No match starts at the end of the text. */
  lemma NothingAtEnd(s: string, p: Pattern)
    requires p.Delimited?
    ensures FindAllFromFirst(s, p, |s|)
  {
  }

  /** Where `MatchAt` succeeds, its match is the first one from there, and `re.findall` captures
      its group and resumes behind it. */
  lemma FirstMatchHere(s: string, p: Pattern, at: nat)
    requires p.Delimited? && at < |s| && MatchAt(s, p, at).Some?
    ensures FindAllFromFirst(s, p, at)
  {
    var m := Span(at, MatchAt(s, p, at).value.0, MatchAt(s, p, at).value.1);
    MatchHereIsFirst(s, p, at);
    CaptureHere(s, p, at);
    assert IsMatch(s, p, m);
    assert CapturesFirst(s, p, at, m);
  }

  /** The match `MatchAt` finds is the first one from `at`. */
  lemma MatchHereIsFirst(s: string, p: Pattern, at: nat)
    requires p.Delimited? && at < |s| && MatchAt(s, p, at).Some?
    ensures FirstMatchFrom(s, p, at, Span(at, MatchAt(s, p, at).value.0, MatchAt(s, p, at).value.1))
  {
    MatchAtIsFirst(s, p, at);
  }

  /** Where `MatchAt` succeeds, `re.findall` captures the group and resumes behind the match. */
  lemma CaptureHere(s: string, p: Pattern, at: nat)
    requires p.Delimited? && at < |s| && MatchAt(s, p, at).Some?
    ensures var (g, c) := MatchAt(s, p, at).value;
      FindAllFrom(s, p, at) == [s[g..c]] + FindAllFrom(s, p, c + 1)
  {
  }

  /** Where no match starts at `at`, the search from `at` is the search from `at + 1`. */
  lemma NoMatchHere(s: string, p: Pattern, at: nat)
    requires p.Delimited? && at < |s| && MatchAt(s, p, at).None?
    requires FindAllFromFirst(s, p, at + 1)
    ensures FindAllFromFirst(s, p, at)
  {
    MatchAtIsFirst(s, p, at);
    assert FindAllFrom(s, p, at) == FindAllFrom(s, p, at + 1);
    if FindAllFrom(s, p, at) != [] {
      var m: Span :| CapturesFirst(s, p, at + 1, m);
      assert CapturesFirst(s, p, at, m);
    }
  }

  /** Round trip: in `lead prefix junk open g close rest`, where no prefix starts inside `lead`,
      `junk` (empty unless the pattern skips) holds no opening delimiter and `g` no closing one,
      and neither holds a line break, the first capture is `g`. */
  lemma FindAllFirstCapture(p: Pattern, lead: string, junk: string, g: string, rest: string)
    requires p.Delimited? && (p.skip || junk == [])
    requires forall i :: 0 <= i < |lead| ==> !OccursAt(lead + p.prefix, p.prefix, i)
    requires p.open !in junk && '\n' !in junk
    requires p.close !in g && '\n' !in g
    ensures var s := lead + (p.prefix + junk + [p.open] + g + [p.close] + rest);
      FindAll(s, p) != [] && FindAll(s, p)[0] == g
  {
    var s := lead + (p.prefix + junk + [p.open] + g + [p.close] + rest);
    var a := |lead|;
    var o := a + |p.prefix| + |junk|;
    var c := o + 1 + |g|;
    LayoutOfCall(lead, p.prefix, junk, p.open, g, p.close, rest);
    forall i | 0 <= i < a ensures !OccursAt(s, p.prefix, i) {
      OccursAtAgree(s, lead + p.prefix, p.prefix, i);
    }
    forall k | a + |p.prefix| <= k < o ensures s[k] != p.open && s[k] != '\n' {
      assert s[k] == junk[k - a - |p.prefix|];
    }
    forall k | o + 1 <= k < c ensures s[k] != p.close && s[k] != '\n' {
      assert s[k] == g[k - o - 1];
    }
    OnlyFirstMatch(s, p, a, o, c);
    assert FindAllFrom(s, p, 0)[0] == s[o + 1..c] == g;
  }

  /** A call laid out as `prefix junk open g close` from `a`, with no prefix starting before `a`,
      no opening delimiter in `junk` and no closing one in `g`, is the match found first, so
      `re.findall` captures its group first. */
  lemma OnlyFirstMatch(s: string, p: Pattern, a: nat, o: nat, c: nat)
    requires p.Delimited? && a + |p.prefix| <= o < c < |s| && (p.skip || o == a + |p.prefix|)
    requires OccursAt(s, p.prefix, a) && s[o] == p.open && s[c] == p.close
    requires forall i :: 0 <= i < a ==> !OccursAt(s, p.prefix, i)
    requires forall k :: a + |p.prefix| <= k < o ==> s[k] != p.open && s[k] != '\n'
    requires forall k :: o + 1 <= k < c ==> s[k] != p.close && s[k] != '\n'
    ensures CapturesFirst(s, p, 0, Span(a, o + 1, c))
  {
    CallIsMatch(s, p, a, o, c);
    FindAllFromIsFirstMatch(s, p, 0);
    assert FindAllFrom(s, p, 0) != [];
    var m: Span :| CapturesFirst(s, p, 0, m);
    FirstMatchIsCall(s, p, a, o, c, m);
  }

  /** Such a call is a match. */
  lemma CallIsMatch(s: string, p: Pattern, a: nat, o: nat, c: nat)
    requires p.Delimited? && a + |p.prefix| <= o < c < |s| && (p.skip || o == a + |p.prefix|)
    requires OccursAt(s, p.prefix, a) && s[o] == p.open && s[c] == p.close
    requires forall k :: a + |p.prefix| <= k < o ==> s[k] != p.open && s[k] != '\n'
    requires forall k :: o + 1 <= k < c ==> s[k] != p.close && s[k] != '\n'
    ensures IsMatch(s, p, Span(a, o + 1, c))
  {
    assert NoBreak(s, o + 1, c);
    assert NoBreak(s, a + |p.prefix|, o);
  }

  /** The first match of such a line is the call at `a`. */
  lemma FirstMatchIsCall(s: string, p: Pattern, a: nat, o: nat, c: nat, m: Span)
    requires p.Delimited? && a + |p.prefix| <= o < c < |s| && IsMatch(s, p, m)
    requires forall i :: 0 <= i < a ==> !OccursAt(s, p.prefix, i)
    requires forall k :: a + |p.prefix| <= k < o ==> s[k] != p.open && s[k] != '\n'
    requires forall k :: o + 1 <= k < c ==> s[k] != p.close && s[k] != '\n'
    requires Precedes(m, Span(a, o + 1, c))
    ensures m == Span(a, o + 1, c)
  {
    assert m.start == a;
    assert s[m.group - 1] == p.open;
    assert m.group == o + 1;
    assert s[m.end] == p.close;
  }

  /** Where the pieces of a call `lead prefix junk open g close rest` lie. */
  lemma LayoutOfCall(lead: string, prefix: string, junk: string, open: char, g: string, close: char, rest: string)
    ensures var s := lead + (prefix + junk + [open] + g + [close] + rest);
      var o := |lead| + |prefix| + |junk|;
      && |s| == o + |g| + 2 + |rest|
      && OccursAt(s, prefix, |lead|)
      && (forall k :: 0 <= k < |lead| + |prefix| ==> s[k] == (lead + prefix)[k])
      && (forall k :: |lead| + |prefix| <= k < o ==> s[k] == junk[k - |lead| - |prefix|])
      && s[o] == open && s[o + 1 + |g|] == close
      && (forall k :: o + 1 <= k < o + 1 + |g| ==> s[k] == g[k - o - 1])
      && s[o + 1..o + 1 + |g|] == g
  {
    var s := lead + (prefix + junk + [open] + g + [close] + rest);
    var o := |lead| + |prefix| + |junk|;
    assert s == (lead + prefix + junk) + ([open] + g + [close] + rest);
    forall k | 0 <= k < |prefix| ensures s[|lead| + k] == prefix[k] {
      assert s[|lead| + k] == (lead + prefix)[|lead| + k];
    }
    assert s[o + 1..o + 1 + |g|] == g;
  }

  /** The captures one pattern yields on one line. */
  function RunPattern(p: Pattern, ex: Extractors, line: string): (r: seq<Capture>)
    ensures forall i :: 0 <= i < |r| ==> (r[i].Two? <==> p.Pair?)
  {
    match p
    case Delimited(_, _, _, _) =>
      var caps := FindAll(line, p);
      seq(|caps|, i requires 0 <= i < |caps| => One(caps[i]))
    case Single(id) =>
      var caps := ex.one(id, line);
      seq(|caps|, i requires 0 <= i < |caps| => One(caps[i]))
    case Pair(id) =>
      var caps := ex.two(id, line);
      seq(|caps|, i requires 0 <= i < |caps| => Two(caps[i].0, caps[i].1))
  }
}
