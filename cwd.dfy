/** Working-directory resolution: the first match of `execve\(.*?"-c", "(.*?)/[^"/]+"` in the
    whole trace gives the directory of the build script; without a match the run aborts. */
module WorkingDir {
  import opened Wrappers
  import opened Text

  /** The two literals of a regex `call.*?flag(.*?)/[^"/]+"`: the call that starts a match and the
      flag after which the group opens. The scan and its proofs hold for any such pair. */
  datatype Literals = Literals(call: string, flag: string)

  /** The reporter's literals: `execve(` and `"-c", "`. */
  const Shell := Literals("execve(", "\"-c\", \"")

  /** A character of the class `[^"/]` (which, unlike `.`, also takes '\n'). */
  predicate IsNameChar(c: char) {
    c != '"' && c != '/'
  }

  /** End of the run of `[^"/]` characters that starts at `i`. */
  function NameEnd(s: string, i: nat): (j: nat)
    requires i <= |s|
    decreases |s| - i
    ensures i <= j <= |s| && (j < |s| ==> !IsNameChar(s[j]))
  {
    if i == |s| || !IsNameChar(s[i]) then i else NameEnd(s, i + 1)
  }

  /** `/[^"/]+"` matches at `e`: a '/', a non-empty last path component, and the closing '"'. */
  predicate TailAt(s: string, e: nat) {
    e < |s| && s[e] == '/' && var j := NameEnd(s, e + 1); e + 1 < j < |s| && s[j] == '"'
  }

  /** The lazy group `(.*?)` from `e`: the first index on the same line where the tail matches. */
  function GroupEnd(s: string, e: nat): (r: Option<nat>)
    requires e <= |s|
    decreases |s| - e
    ensures r.Some? ==> e <= r.value < |s| && TailAt(s, r.value) && NoBreak(s, e, r.value)
  {
    if e == |s| then None
    else if TailAt(s, e) then Some(e)
    else if s[e] == '\n' then None
    else GroupEnd(s, e + 1)
  }

  /** The lazy `.*?` after the call, from `m`: the first flag on the same line. When the group
      cannot match after that flag, it cannot match after any later flag of the line either
      (`MatchDominated`), so the regex engine's backtracking over flags ends where this scan
      stops. */
  function FlagFrom(s: string, p: Literals, m: nat): (r: Option<nat>)
    requires m <= |s|
    decreases |s| - m
    ensures r.Some? ==> m <= r.value && OccursAt(s, p.flag, r.value) && NoBreak(s, m, r.value)
  {
    if m == |s| then None
    else if OccursAt(s, p.flag, m) then Some(m)
    else if s[m] == '\n' then None
    else FlagFrom(s, p, m + 1)
  }

  /** The skip stops at the first flag on the line. */
  lemma {:induction false} FlagFromIsFirst(s: string, p: Literals, m: nat, k: nat)
    requires m <= k < |s| && NoBreak(s, m, k) && OccursAt(s, p.flag, k)
    ensures FlagFrom(s, p, m).Some? && FlagFrom(s, p, m).value <= k
    decreases k - m
  {
    if m < k && !OccursAt(s, p.flag, m) {
      assert NotBreak(s, m);
      FlagFromIsFirst(s, p, m + 1, k);
    }
  }

  /** A match of the regex starts at `x`: the call is there, a flag follows on its line, and the
      group and the tail match after that flag. */
  predicate StartsAt(s: string, p: Literals, x: nat) {
    OccursAt(s, p.call, x) && match FlagFrom(s, p, x + |p.call|)
      case None => false
      case Some(d) => d + |p.flag| <= |s| && GroupEnd(s, d + |p.flag|).Some?
  }

  /** Where the leftmost match at or after `i` starts. */
  function MatchFrom(s: string, p: Literals, i: nat): (r: Option<nat>)
    requires i <= |s|
    decreases |s| - i
    ensures r.Some? ==> i <= r.value && StartsAt(s, p, r.value)
  {
    if i == |s| then None
    else if StartsAt(s, p, i) then Some(i)
    else MatchFrom(s, p, i + 1)
  }

  /** The scan stops at the first start of a match. */
  lemma {:induction false} MatchFromIsFirst(s: string, p: Literals, i: nat, x: nat)
    requires i <= x && StartsAt(s, p, x)
    ensures MatchFrom(s, p, i).Some? && MatchFrom(s, p, i).value <= x
    decreases x - i
  {
    if i < x && !StartsAt(s, p, i) {
      MatchFromIsFirst(s, p, i + 1, x);
    }
  }

  /** A match of the regex, by where the call and the flag start and where the group ends. */
  datatype Hit = Hit(call: nat, flag: nat, end: nat)

  /** The match the scan finds: the leftmost start, the first flag after it, then the first tail
      after that. The bounds tested on the way always hold (`FindHitFound`). */
  function FindHit(s: string, p: Literals): (r: Option<Hit>)
    ensures r.Some? ==> r.value.flag + |p.flag| <= r.value.end < |s|
  {
    match MatchFrom(s, p, 0)
    case None => None
    case Some(x) =>
      if |s| < x + |p.call| then None
      else match FlagFrom(s, p, x + |p.call|)
        case None => None
        case Some(d) =>
          if |s| < d + |p.flag| then None
          else match GroupEnd(s, d + |p.flag|)
            case None => None
            case Some(e) => Some(Hit(x, d, e))
  }

  /** The scan finds a match exactly when a match starts somewhere. */
  lemma FindHitFound(s: string, p: Literals)
    ensures FindHit(s, p).Some? <==> MatchFrom(s, p, 0).Some?
  {
    if MatchFrom(s, p, 0).Some? {
      assert StartsAt(s, p, MatchFrom(s, p, 0).value);
    }
  }

  /** `re.findall(...)[0]` for the regex of `p`: the group of the first match, or `None` where
      indexing the empty list raises. */
  function FirstGroup(trace: string, p: Literals): Option<string> {
    match FindHit(trace, p)
    case None => None
    case Some(h) => Some(trace[h.flag + |p.flag|..h.end])
  }

  /** The directory of the build script, or `None` when the trace holds no shell call. */
  function ResolveCwd(trace: string): Option<string> {
    FirstGroup(trace, Shell)
  }

  /** `h` is a match of the whole regex: the call, the flag, the group from behind the flag to
      `h.end`, and the tail `/name"` at `h.end`; neither `.*?` crosses a line break. */
  ghost predicate Match(s: string, p: Literals, h: Hit) {
    OccursAt(s, p.call, h.call) && h.call + |p.call| <= h.flag && NoBreak(s, h.call + |p.call|, h.flag)
    && OccursAt(s, p.flag, h.flag) && h.flag + |p.flag| <= h.end && NoBreak(s, h.flag + |p.flag|, h.end)
    && TailAt(s, h.end)
  }

  /** `h` comes no later than `h'` in the order in which the regex engine tries matches: the
      leftmost start, then the shortest lazy skip, then the shortest lazy group. */
  ghost predicate TriedFirst(h: Hit, h': Hit) {
    h.call < h'.call || (h.call == h'.call && (h.flag < h'.flag || (h.flag == h'.flag && h.end <= h'.end)))
  }

  /** The group the resolver returns is the group of the match the regex engine finds first; it
      fails exactly when the trace holds no match at all. This holds for any flag without a line
      break. */
  lemma FirstGroupIsFirstMatch(trace: string, p: Literals)
    requires '\n' !in p.flag
    ensures FirstGroup(trace, p).None? <==> forall h :: !Match(trace, p, h)
    ensures FirstGroup(trace, p).Some? ==> exists h :: (Match(trace, p, h)
      && FirstGroup(trace, p).value == trace[h.flag + |p.flag|..h.end]
      && forall h' :: Match(trace, p, h') ==> TriedFirst(h, h'))
  {
    forall h | Match(trace, p, h)
      ensures FindHit(trace, p).Some? && TriedFirst(FindHit(trace, p).value, h)
    {
      MatchDominated(trace, p, h);
    }
    if FindHit(trace, p).Some? {
      FindHitIsMatch(trace, p);
    }
  }

  /** The reporter's working directory is the group of the first match of its regex in the
      trace, and the run aborts exactly when the trace holds no match. */
  lemma {:induction false} ResolveCwdIsFirstMatch(trace: string)
    ensures ResolveCwd(trace).None? <==> forall h :: !Match(trace, Shell, h)
    ensures ResolveCwd(trace).Some? ==> exists h :: (Match(trace, Shell, h)
      && ResolveCwd(trace).value == trace[h.flag + 7..h.end]
      && forall h' :: Match(trace, Shell, h') ==> TriedFirst(h, h'))
  {
    assert |Shell.flag| == 7 && '\n' !in Shell.flag;
    FirstGroupIsFirstMatch(trace, Shell);
  }

  /** Every match is found by the scan, and none precedes the one found. */
  lemma MatchDominated(s: string, p: Literals, h: Hit)
    requires '\n' !in p.flag && Match(s, p, h)
    ensures FindHit(s, p).Some? && TriedFirst(FindHit(s, p).value, h)
  {
    StagesReach(s, p, h);
    StagesDominate(s, p, h);
  }

  /** Each stage of the scan, run from where a match's previous stage stopped, stops no later
      than that match. */
  lemma StagesReach(s: string, p: Literals, h: Hit)
    requires '\n' !in p.flag && Match(s, p, h)
    ensures MatchFrom(s, p, 0).Some? && MatchFrom(s, p, 0).value <= h.call
    ensures FlagFrom(s, p, h.call + |p.call|).Some? && FlagFrom(s, p, h.call + |p.call|).value <= h.flag
    ensures GroupEnd(s, h.flag + |p.flag|).Some? && GroupEnd(s, h.flag + |p.flag|).value <= h.end
  {
    CallStageReach(s, p, h);
    FlagFromIsFirst(s, p, h.call + |p.call|, h.flag);
    GroupEndIsFirst(s, h.flag + |p.flag|, h.end);
  }

  /** The leftmost start is no later than the start of any match. */
  lemma CallStageReach(s: string, p: Literals, h: Hit)
    requires '\n' !in p.flag && Match(s, p, h)
    ensures MatchFrom(s, p, 0).Some? && MatchFrom(s, p, 0).value <= h.call
  {
    StartsAtMatch(s, p, h);
    MatchFromIsFirst(s, p, 0, h.call);
  }

  /** Stages that each stop no later than `h` make the scan's hit come no later than `h`. */
  lemma {:induction false} StagesDominate(s: string, p: Literals, h: Hit)
    requires MatchFrom(s, p, 0).Some? && MatchFrom(s, p, 0).value <= h.call
    requires h.call + |p.call| <= |s| && h.flag + |p.flag| <= |s|
    requires FlagFrom(s, p, h.call + |p.call|).Some? && FlagFrom(s, p, h.call + |p.call|).value <= h.flag
    requires GroupEnd(s, h.flag + |p.flag|).Some? && GroupEnd(s, h.flag + |p.flag|).value <= h.end
    ensures FindHit(s, p).Some? && TriedFirst(FindHit(s, p).value, h)
  {
    FindHitFound(s, p);
    FindHitStages(s, p);
    var f := FindHit(s, p).value;
    assert f.call <= h.call;
    if f.call == h.call {
      assert f.flag <= h.flag;
      if f.flag == h.flag {
        assert f.end <= h.end;
      }
    }
  }

  /** A match starts where each match starts: after the first flag of the line the group still
      reaches the match's tail, since the flag holds no line break. */
  lemma StartsAtMatch(s: string, p: Literals, h: Hit)
    requires '\n' !in p.flag && Match(s, p, h)
    ensures StartsAt(s, p, h.call)
  {
    var m, g := h.call + |p.call|, h.flag + |p.flag|;
    FlagFromIsFirst(s, p, m, h.flag);
    var d := FlagFrom(s, p, m).value;
    FlagHasNoBreak(s, p.flag, h.flag);
    NoBreakJoin(s, d + |p.flag|, h.flag, g);
    NoBreakJoin(s, d + |p.flag|, g, h.end);
    GroupEndIsFirst(s, d + |p.flag|, h.end);
  }

  /** A flag without a line break holds none. */
  lemma FlagHasNoBreak(s: string, w: string, d: nat)
    requires OccursAt(s, w, d) && '\n' !in w
    ensures NoBreak(s, d, d + |w|)
  {
    forall k | d <= k < d + |w| ensures NotBreak(s, k) {
      assert s[d + (k - d)] == w[k - d];
    }
  }

  /** Two stretches without a line break that touch make one, and so does any part of it. */
  lemma NoBreakJoin(s: string, a: int, b: int, c: int)
    requires NoBreak(s, a, b) || a >= b
    requires NoBreak(s, b, c)
    ensures NoBreak(s, a, c)
  {
  }

  /** The lazy group stops at the first tail on its line. */
  lemma {:induction false} GroupEndIsFirst(s: string, g: nat, e: nat)
    requires g <= e && TailAt(s, e) && NoBreak(s, g, e)
    ensures GroupEnd(s, g).Some? && GroupEnd(s, g).value <= e
    decreases e - g
  {
    if g < e && !TailAt(s, g) {
      assert NotBreak(s, g);
      GroupEndIsFirst(s, g + 1, e);
    }
  }

  /** The match the scan finds is a match of the regex. */
  lemma FindHitIsMatch(s: string, p: Literals)
    requires FindHit(s, p).Some?
    ensures Match(s, p, FindHit(s, p).value)
  {
    var h := FindHit(s, p).value;
    FindHitStages(s, p);
    StagesMatch(s, p, h);
  }

  /** Where the three stages of the scan stop, for the match it finds. */
  lemma FindHitStages(s: string, p: Literals)
    ensures FindHit(s, p).Some? ==> var h := FindHit(s, p).value;
      && MatchFrom(s, p, 0) == Some(h.call) && h.call + |p.call| <= |s|
      && FlagFrom(s, p, h.call + |p.call|) == Some(h.flag) && h.flag + |p.flag| <= |s|
      && GroupEnd(s, h.flag + |p.flag|) == Some(h.end)
  {
  }

  /** Where the three stages of the scan stop is a match. */
  lemma StagesMatch(s: string, p: Literals, h: Hit)
    requires MatchFrom(s, p, 0) == Some(h.call) && h.call + |p.call| <= |s|
    requires FlagFrom(s, p, h.call + |p.call|) == Some(h.flag) && h.flag + |p.flag| <= |s|
    requires GroupEnd(s, h.flag + |p.flag|) == Some(h.end)
    ensures Match(s, p, h)
  {
    assert StartsAt(s, p, h.call);
  }

  /** A trace that opens with a call `call junk flag dir/name"`, where the flag does not already
      start inside `junk`, yields `dir`: the lazy group stops at the last '/' of the script path,
      since every earlier '/' is followed by another '/' before any '"'. */
  lemma FirstGroupOfScript(p: Literals, junk: string, dir: string, name: string, rest: string)
    requires '\n' !in p.flag
    requires '\n' !in junk && forall k :: 0 <= k < |junk| ==> !OccursAt(junk + p.flag, p.flag, k)
    requires '"' !in dir && '\n' !in dir
    requires name != [] && forall k :: 0 <= k < |name| ==> IsNameChar(name[k])
    ensures FirstGroup(p.call + junk + p.flag + dir + "/" + name + "\"" + rest, p) == Some(dir)
  {
    var s := p.call + junk + p.flag + dir + "/" + name + "\"" + rest;
    ScriptLayout(p, junk, dir, name, rest);
    FirstGroupOfLayout(s, p, junk, dir, name);
  }

  /** The reporter's case: a trace that opens with `execve(... "-c", "dir/name"` resolves to
      `dir`. */
  lemma ResolveCwdOfScript(junk: string, dir: string, name: string, rest: string)
    requires '\n' !in junk && forall k :: 0 <= k < |junk| ==> !OccursAt(junk + Shell.flag, Shell.flag, k)
    requires '"' !in dir && '\n' !in dir
    requires name != [] && forall k :: 0 <= k < |name| ==> IsNameChar(name[k])
    ensures ResolveCwd("execve(" + junk + "\"-c\", \"" + dir + "/" + name + "\"" + rest) == Some(dir)
  {
    assert '\n' !in Shell.flag;
    FirstGroupOfScript(Shell, junk, dir, name, rest);
  }

  /** Where the parts of the call lie in the trace. */
  ghost predicate ScriptAt(s: string, p: Literals, junk: string, dir: string, name: string) {
    var c := |p.call|;
    var d := c + |junk|;
    var g := d + |p.flag|;
    var e := g + |dir|;
    e + 1 + |name| < |s| && s[..c] == p.call && s[c..g] == junk + p.flag
    && s[g..e] == dir && s[e] == '/' && s[e + 1..e + 1 + |name|] == name && s[e + 1 + |name|] == '"'
  }

  lemma ScriptLayout(p: Literals, junk: string, dir: string, name: string, rest: string)
    ensures ScriptAt(p.call + junk + p.flag + dir + "/" + name + "\"" + rest, p, junk, dir, name)
  {
    var s := p.call + junk + p.flag + dir + "/" + name + "\"" + rest;
    var e := |p.call| + |junk| + |p.flag| + |dir|;
    assert s == (p.call + (junk + p.flag)) + dir + "/" + name + "\"" + rest;
    assert s[e + 1..e + 1 + |name|] == name;
  }

  lemma FirstGroupOfLayout(s: string, p: Literals, junk: string, dir: string, name: string)
    requires '\n' !in p.flag
    requires '\n' !in junk && forall k :: 0 <= k < |junk| ==> !OccursAt(junk + p.flag, p.flag, k)
    requires '"' !in dir && '\n' !in dir
    requires name != [] && forall k :: 0 <= k < |name| ==> IsNameChar(name[k])
    requires ScriptAt(s, p, junk, dir, name)
    ensures FirstGroup(s, p) == Some(dir)
  {
    var c := |p.call|;
    var d := c + |junk|;
    var g := d + |p.flag|;
    var e := g + |dir|;
    ScriptMatches(s, p, junk, dir, name);
    NoFlagInJunk(s, p, junk);
    NoQuoteInDir(s, g, e, dir);
    FirstGroupOfMatch(s, p, d, e, dir);
  }

  /** No '"' lies in the group when none lies in `dir`. */
  lemma NoQuoteInDir(s: string, g: nat, e: nat, dir: string)
    requires g <= e <= |s| && s[g..e] == dir && '"' !in dir
    ensures forall k :: g <= k < e ==> s[k] != '"'
  {
    forall k | g <= k < e ensures s[k] != '"' {
      assert s[g..e][k - g] == s[k];
    }
  }

  /** A match at the start of the trace, with no earlier flag and no '"' in its group, is the one
      the resolver finds. */
  lemma FirstGroupOfMatch(s: string, p: Literals, d: nat, e: nat, dir: string)
    requires '\n' !in p.flag
    requires Match(s, p, Hit(0, d, e)) && s[d + |p.flag|..e] == dir
    requires forall d0 :: |p.call| <= d0 < d ==> !OccursAt(s, p.flag, d0)
    requires forall k :: d + |p.flag| <= k < e ==> s[k] != '"'
    ensures FirstGroup(s, p) == Some(dir)
  {
    MatchDominated(s, p, Hit(0, d, e));
    FindHitIsMatch(s, p);
    var f := FindHit(s, p).value;
    assert f.call == 0;
    assert f.flag == d;
    NoTailBefore(s, d + |p.flag|, e);
    assert f.end == e;
  }

  /** The call is a match of the regex. */
  lemma {:induction false} ScriptMatches(s: string, p: Literals, junk: string, dir: string, name: string)
    requires '\n' !in junk && '\n' !in dir
    requires name != [] && forall k :: 0 <= k < |name| ==> IsNameChar(name[k])
    requires ScriptAt(s, p, junk, dir, name)
    ensures Match(s, p, Hit(0, |p.call| + |junk|, |p.call| + |junk| + |p.flag| + |dir|))
  {
    var c := |p.call|;
    var d := c + |junk|;
    var g := d + |p.flag|;
    var e := g + |dir|;
    TailOfName(s, e, name);
    FlagAfterJunk(s, c, junk, p.flag);
    NoBreakOf(s, c, d, junk);
    NoBreakOf(s, g, e, dir);
    assert OccursAt(s, p.call, 0);
  }

  /** `/name"` at `e` is a tail when `name` is a non-empty run of `[^"/]`. */
  lemma TailOfName(s: string, e: nat, name: string)
    requires e + 1 + |name| < |s| && s[e] == '/' && s[e + 1..e + 1 + |name|] == name
    requires s[e + 1 + |name|] == '"'
    requires name != [] && forall k :: 0 <= k < |name| ==> IsNameChar(name[k])
    ensures TailAt(s, e)
  {
    forall k | e + 1 <= k < e + 1 + |name| ensures IsNameChar(s[k]) {
      assert s[e + 1..e + 1 + |name|][k - e - 1] == s[k];
    }
    NameEndAt(s, e + 1, e + 1 + |name|);
  }

  /** The flag that closes `junk + flag` occurs right after `junk`, and `junk` comes first. */
  lemma FlagAfterJunk(s: string, c: nat, junk: string, flag: string)
    requires c + |junk| + |flag| <= |s| && s[c..c + |junk| + |flag|] == junk + flag
    ensures OccursAt(s, flag, c + |junk|) && s[c..c + |junk|] == junk
  {
    var w := s[c..c + |junk| + |flag|];
    assert s[c..c + |junk|] == w[..|junk|];
    assert s[c + |junk|..c + |junk| + |flag|] == w[|junk|..];
  }

  /** A slice equal to a string without '\n' holds no line break. */
  lemma NoBreakOf(s: string, i: nat, j: nat, t: string)
    requires i <= j <= |s| && s[i..j] == t && '\n' !in t
    ensures NoBreak(s, i, j)
  {
    forall k | i <= k < j ensures s[k] != '\n' {
      assert s[i..j][k - i] == s[k];
    }
  }

  /** No flag starts inside `junk`. */
  lemma NoFlagInJunk(s: string, p: Literals, junk: string)
    requires |p.call| + |junk| + |p.flag| <= |s|
    requires s[|p.call|..|p.call| + |junk| + |p.flag|] == junk + p.flag
    requires forall k :: 0 <= k < |junk| ==> !OccursAt(junk + p.flag, p.flag, k)
    ensures forall d0 :: |p.call| <= d0 < |p.call| + |junk| ==> !OccursAt(s, p.flag, d0)
  {
    forall d0 | |p.call| <= d0 < |p.call| + |junk| && OccursAt(s, p.flag, d0) ensures false {
      FlagInJunk(s, p, junk, d0);
    }
  }

  lemma FlagInJunk(s: string, p: Literals, junk: string, d0: int)
    requires |p.call| + |junk| + |p.flag| <= |s|
    requires s[|p.call|..|p.call| + |junk| + |p.flag|] == junk + p.flag
    requires |p.call| <= d0 < |p.call| + |junk| && OccursAt(s, p.flag, d0)
    ensures OccursAt(junk + p.flag, p.flag, d0 - |p.call|)
  {
    var c, f := |p.call|, |p.flag|;
    var w := s[c..c + |junk| + f];
    var u, v := s[d0..d0 + f], w[d0 - c..d0 - c + f];
    forall k | 0 <= k < f ensures u[k] == v[k] {
      assert w[d0 - c + k] == s[d0 + k];
    }
    assert u == v;
  }

  /** No tail `/name"` starts between `lo` and a '/' at `e` when no '"' lies in between. */
  lemma NoTailBefore(s: string, lo: nat, e: nat)
    requires lo <= e < |s| && s[e] == '/'
    requires forall k :: lo <= k < e ==> s[k] != '"'
    ensures forall k :: lo <= k < e ==> !TailAt(s, k)
  {
    forall k | lo <= k < e ensures !TailAt(s, k) {
      if k + 1 <= e {
        NameEndBounded(s, k + 1, e);
      }
    }
  }

  lemma {:induction false} NameEndAt(s: string, i: nat, j: nat)
    requires i <= j < |s| && !IsNameChar(s[j])
    requires forall k :: i <= k < j ==> IsNameChar(s[k])
    ensures NameEnd(s, i) == j
    decreases j - i
  {
    if i < j {
      NameEndAt(s, i + 1, j);
    }
  }

  /** The run of `[^"/]` stops at or before a '/' at `e`. */
  lemma {:induction false} NameEndBounded(s: string, i: nat, e: nat)
    requires i <= e < |s| && s[e] == '/'
    ensures NameEnd(s, i) <= e
    decreases e - i
  {
    if i < e && IsNameChar(s[i]) {
      NameEndBounded(s, i + 1, e);
    }
  }
}
