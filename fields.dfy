/** The per-line fields of the reporter's static helpers: the container id (`get_containerid`),
    the timestamp slice, the whitelist test (`is_on_whitelist`), the executable of a process
    (`get_executable_path`) and the IPv4 shape test of `parse_hosts_to_ip_mac_addresses`. */
module Fields {
  import opened Wrappers
  import opened Text

  // ---------------------------------------------------------------------------------------------
  // Container id: the regex `([0-9a-z]*)[|]` under `re.search`

  /** The characters of the class `[0-9a-z]`. */
  predicate IsIdChar(c: char) {
    '0' <= c <= '9' || 'a' <= c <= 'z'
  }

  /** Start of the longest run of `[0-9a-z]` characters that ends just before index `j`. */
  function RunStart(s: string, j: nat): (i: nat)
    requires j <= |s|
    ensures i <= j
    ensures forall k :: i <= k < j ==> IsIdChar(s[k])
    ensures i == 0 || !IsIdChar(s[i - 1])
  {
    if j == 0 || !IsIdChar(s[j - 1]) then j else RunStart(s, j - 1)
  }

  /** `get_containerid`: the longest `[0-9a-z]` run directly before the first '|' of the line,
      or "" when the line has no '|'. */
  function GetContainerId(line: string): (r: string)
    ensures forall k :: 0 <= k < |r| ==> IsIdChar(r[k])
    ensures '|' !in line ==> r == ""
    ensures match IndexFrom(line, '|', 0)
      case None => r == ""
      case Some(p) => |r| <= p && line[p - |r|..p] == r && (|r| == p || !IsIdChar(line[p - |r| - 1]))
  {
    match IndexFrom(line, '|', 0)
    case None => ""
    case Some(p) =>
      var i := RunStart(line, p);
      assert forall k :: 0 <= k < p - i ==> line[i..p][k] == line[i + k];
      line[i..p]
  }

  /** A match of `([0-9a-z]*)[|]` that starts at `i` and whose '|' is at `j`. */
  ghost predicate IdMatchAt(line: string, i: int, j: int) {
    0 <= i <= j < |line| && line[j] == '|' && forall k :: i <= k < j ==> IsIdChar(line[k])
  }

  /** `get_containerid` is `re.search`: the regex matches somewhere iff the line has a '|', and
      the result is the group of the leftmost match. */
  lemma ContainerIdIsLeftmostMatch(line: string)
    ensures (exists i, j :: IdMatchAt(line, i, j)) <==> '|' in line
    ensures '|' in line ==> exists i, j :: (IdMatchAt(line, i, j) && GetContainerId(line) == line[i..j]
      && forall i', j' :: IdMatchAt(line, i', j') ==> i <= i')
  {
    if '|' in line {
      var p := IndexFrom(line, '|', 0).value;
      var i := RunStart(line, p);
      assert IdMatchAt(line, i, p);
      forall i', j' | IdMatchAt(line, i', j') ensures i <= i' {
        assert p <= j';
      }
    }
  }

  /** Round trip: a line that starts with a token of `[0-9a-z]` and a '|' has that token as its
      container id, whatever follows. */
  lemma ContainerIdOfToken(token: string, rest: string)
    requires forall k :: 0 <= k < |token| ==> IsIdChar(token[k])
    ensures GetContainerId(token + "|" + rest) == token
  {
    var line := token + "|" + rest;
    assert line[|token|] == '|' && line[..|token|] == token;
    assert forall k :: 0 <= k < |token| ==> line[k] == token[k];
    ContainerIdOfLeadingRun(line, |token|);
  }

  /** A line whose first '|' sits at `p` behind nothing but `[0-9a-z]` has all of `line[..p]` as
      its container id. */
  lemma ContainerIdOfLeadingRun(line: string, p: nat)
    requires p < |line| && line[p] == '|' && forall k :: 0 <= k < p ==> IsIdChar(line[k])
    ensures GetContainerId(line) == line[..p]
  {
    IndexFromAt(line, '|', 0, p);
    var r := GetContainerId(line);
    assert |r| == p;
  }

  // ---------------------------------------------------------------------------------------------
  // Timestamp: `line[:31]`

  /** `line[:31]`: the first 31 characters of the line, or all of a shorter line. */
  function Timestamp(line: string): (r: string)
    ensures StartsWith(line, r)
    ensures |r| == if |line| < 31 then |line| else 31
  {
    if |line| <= 31 then line else line[..31]
  }

  // ---------------------------------------------------------------------------------------------
  // Whitelist

  /** The fixed list of ignored prefixes: npm's cache, locks, metrics file and logs. */
  const Whitelist: seq<string> := [
    "/root/.npm/_cacache",
    "/root/.npm/_locks",
    "/root/.npm/anonymous-cli-metrics.json",
    "/root/.npm/_logs"
  ]

  /** `is_on_whitelist`: the name starts with one of the whitelisted prefixes. */
  predicate IsOnWhitelist(name: string) {
    exists i | 0 <= i < |Whitelist| :: StartsWith(name, Whitelist[i])
  }

  /** Everything the whitelist suppresses lies under npm's directory "/root/.npm/". */
  lemma WhitelistedIsUnderNpm(name: string)
    requires IsOnWhitelist(name)
    ensures StartsWith(name, "/root/.npm/")
  {
    var i :| 0 <= i < |Whitelist| && StartsWith(name, Whitelist[i]);
    assert StartsWith(Whitelist[i], "/root/.npm/");
    assert name[..11] == Whitelist[i][..11];
  }

  /** The test is by prefix: anything appended to a whitelisted name is whitelisted too. */
  lemma WhitelistedExtension(name: string, more: string)
    requires IsOnWhitelist(name)
    ensures IsOnWhitelist(name + more)
  {
    var i :| 0 <= i < |Whitelist| && StartsWith(name, Whitelist[i]);
    assert (name + more)[..|Whitelist[i]|] == name[..|Whitelist[i]|];
  }

  // ---------------------------------------------------------------------------------------------
  // Executable path: the regex `execve\("([^"]*)"` under `re.search`

  /** The literal `execve("`. */
  const ExecveQuote := "execve(\""

  /** A match of `execve\("([^"]*)"` at `i` whose closing '"' is at `k`. */
  ghost predicate ExecMatchAt(s: string, i: int, k: int) {
    OccursAt(s, ExecveQuote, i) && i + 8 <= k < |s| && s[k] == '"'
    && forall j :: i + 8 <= j < k ==> s[j] != '"'
  }

  /** The leftmost match at or after `i`, as its start and the index of its closing '"'. */
  function ExecMatchFrom(s: string, i: nat): (r: Option<(nat, nat)>)
    requires i <= |s|
    decreases |s| - i
    ensures r.Some? ==> i <= r.value.0 && ExecMatchAt(s, r.value.0, r.value.1)
    ensures r.Some? ==> forall j, k :: i <= j < r.value.0 ==> !ExecMatchAt(s, j, k)
    ensures r.None? ==> forall j, k :: i <= j ==> !ExecMatchAt(s, j, k)
  {
    if i == |s| then None
    else if OccursAt(s, ExecveQuote, i) && IndexFrom(s, '"', i + 8).Some? then
      Some((i, IndexFrom(s, '"', i + 8).value))
    else ExecMatchFrom(s, i + 1)
  }

  /** `get_executable_path`: the first quoted argument of the first `execve("` call of the raw
      line, or "" when there is none. */
  function GetExecutablePath(command: string): (r: string)
    ensures '"' !in r
  {
    match ExecMatchFrom(command, 0)
    case None => ""
    case Some((i, k)) => command[i + 8..k]
  }

  /** The path is the group of the leftmost match, and "" when nothing matches. */
  lemma ExecutablePathIsLeftmostMatch(command: string, i: int, k: int)
    ensures (forall j, l :: !ExecMatchAt(command, j, l)) ==> GetExecutablePath(command) == ""
    ensures ExecMatchAt(command, i, k) && (forall j, l :: j < i ==> !ExecMatchAt(command, j, l)) ==>
      GetExecutablePath(command) == command[i + 8..k]
  {
    if ExecMatchAt(command, i, k) && (forall j, l :: j < i ==> !ExecMatchAt(command, j, l)) {
      var m := ExecMatchFrom(command, 0);
      assert m.Some?;
      var (i', k') := m.value;
      assert i' == i;
    }
  }

  /** Round trip: for a line that starts with `execve("p"`, the path is `p`. */
  lemma ExecutablePathOfCall(p: string, rest: string)
    requires '"' !in p
    ensures GetExecutablePath(ExecveQuote + p + "\"" + rest) == p
  {
    var s := ExecveQuote + p + "\"" + rest;
    assert ExecMatchAt(s, 0, 8 + |p|) by {
      assert s[..8] == ExecveQuote;
      forall j | 8 <= j < 8 + |p| ensures s[j] != '"' {
        assert s[j] == p[j - 8];
      }
    }
    ExecutablePathIsLeftmostMatch(s, 0, 8 + |p|);
    assert s[8..8 + |p|] == p;
  }

  // ---------------------------------------------------------------------------------------------
  // IPv4 shape: the regex `^(?:[0-9]{1,3}\.){3}[0-9]{1,3}` under `re.search`

  predicate IsDigit(c: char) {
    '0' <= c <= '9'
  }

  /** End of the run of digits that starts at index `i`. */
  function DigitRun(s: string, i: nat): (j: nat)
    requires i <= |s|
    decreases |s| - i
    ensures i <= j <= |s| && (j < |s| ==> !IsDigit(s[j]))
  {
    if i == |s| || !IsDigit(s[i]) then i else DigitRun(s, i + 1)
  }

  /** The run holds only digits. */
  lemma {:induction false} DigitRunDigits(s: string, i: nat)
    requires i <= |s|
    ensures forall k :: i <= k < DigitRun(s, i) ==> IsDigit(s[k])
    decreases |s| - i
  {
    if i < |s| && IsDigit(s[i]) {
      DigitRunDigits(s, i + 1);
    }
  }

  /** From index `i`, `s` holds `groups` repetitions of `[0-9]{1,3}\.` and then `[0-9]{1,3}`.
      Each `[0-9]{1,3}\.` forces the whole digit run to be one to three digits long. */
  predicate DottedAt(s: string, i: nat, groups: nat)
    requires i <= |s|
    decreases groups
  {
    var j := DigitRun(s, i);
    if groups == 0 then i < j
    else i < j <= i + 3 && j < |s| && s[j] == '.' && DottedAt(s, j + 1, groups - 1)
  }

  /** The test on the raw line that picks an IPv4 object over an IPv6 one. */
  predicate LooksLikeIPv4(s: string) {
    DottedAt(s, 0, 3)
  }

  /** One to three digits. */
  ghost predicate Octet(t: string) {
    1 <= |t| <= 3 && forall k :: 0 <= k < |t| ==> IsDigit(t[k])
  }

  /** A run of digits from `i` that stops at `j` is the digit run from `i`. */
  lemma {:induction false} DigitRunEnds(s: string, i: nat, j: nat)
    requires i <= j <= |s| && (j < |s| ==> !IsDigit(s[j]))
    requires forall k :: i <= k < j ==> IsDigit(s[k])
    ensures DigitRun(s, i) == j
    decreases j - i
  {
    if i < j {
      DigitRunEnds(s, i + 1, j);
    }
  }

  /** Digit runs of one to three cut by dots at `j1`, `j2` and `j3`, with a digit after the last
      dot, pass the IPv4 test. */
  lemma DottedOfCuts(s: string, j1: nat, j2: nat, j3: nat)
    requires 0 < j1 <= 3 && j1 + 1 < j2 <= j1 + 4 && j2 + 1 < j3 <= j2 + 4 && j3 + 1 < |s|
    requires s[j1] == '.' && s[j2] == '.' && s[j3] == '.' && IsDigit(s[j3 + 1])
    requires forall k :: 0 <= k < j1 ==> IsDigit(s[k])
    requires forall k :: j1 + 1 <= k < j2 ==> IsDigit(s[k])
    requires forall k :: j2 + 1 <= k < j3 ==> IsDigit(s[k])
    ensures LooksLikeIPv4(s)
  {
    DigitRunEnds(s, 0, j1);
    DigitRunEnds(s, j1 + 1, j2);
    DigitRunEnds(s, j2 + 1, j3);
    assert DottedAt(s, j3 + 1, 0);
    assert DottedAt(s, j2 + 1, 1);
    assert DottedAt(s, j1 + 1, 2);
  }

  /** Where the pieces of `a.b.c.d rest` lie. */
  lemma QuadLayout(a: string, b: string, c: string, d: string, rest: string)
    requires d != []
    ensures var t, p1 := a + "." + b + "." + c + "." + d + rest, |a|;
      var p2 := p1 + 1 + |b|;
      var p3 := p2 + 1 + |c|;
      && p3 < |t| && t[p1] == '.' && t[p2] == '.' && t[p3] == '.' && t[p3 + 1] == d[0]
      && (forall k :: 0 <= k < |a| ==> t[k] == a[k])
      && (forall k :: 0 <= k < |b| ==> t[p1 + 1 + k] == b[k])
      && (forall k :: 0 <= k < |c| ==> t[p2 + 1 + k] == c[k])
  {
  }

  /** Every text that starts with four dot-separated octets passes the IPv4 test ... */
  lemma {:induction false} IPv4Complete(a: string, b: string, c: string, d: string, rest: string)
    requires Octet(a) && Octet(b) && Octet(c) && Octet(d)
    ensures LooksLikeIPv4(a + "." + b + "." + c + "." + d + rest)
  {
    var t := a + "." + b + "." + c + "." + d + rest;
    var p1 := |a|;
    var p2 := p1 + 1 + |b|;
    var p3 := p2 + 1 + |c|;
    QuadLayout(a, b, c, d, rest);
    forall k | p1 + 1 <= k < p2 ensures IsDigit(t[k]) {
      assert t[p1 + 1 + (k - p1 - 1)] == b[k - p1 - 1];
    }
    forall k | p2 + 1 <= k < p3 ensures IsDigit(t[k]) {
      assert t[p2 + 1 + (k - p2 - 1)] == c[k - p2 - 1];
    }
    DottedOfCuts(t, p1, p2, p3);
  }

  /** The text starts with four octets joined by dots. */
  ghost predicate StartsWithQuad(s: string) {
    exists a, b, c, d, rest ::
      Octet(a) && Octet(b) && Octet(c) && Octet(d) && s == a + "." + b + "." + c + "." + d + rest
  }

  /** ... and every text that passes it starts that way. */
  lemma IPv4Sound(s: string)
    requires LooksLikeIPv4(s)
    ensures StartsWithQuad(s)
  {
    var j1 := DigitRun(s, 0);
    DottedStep(s, 0, 2);
    var j2 := DigitRun(s, j1 + 1);
    DottedStep(s, j1 + 1, 1);
    var j3 := DigitRun(s, j2 + 1);
    DottedStep(s, j2 + 1, 0);
    QuadOfRuns(s, j1, j2, j3);
  }

  /** Digit runs ending in dots at `j1`, `j2` and `j3`, each of one to three digits, and a
      fourth run of at least one digit make the text start with four octets. */
  lemma {:induction false} QuadOfRuns(s: string, j1: nat, j2: nat, j3: nat)
    requires j1 == DigitRun(s, 0) && 0 < j1 <= 3 && j1 < |s| && s[j1] == '.'
    requires j2 == DigitRun(s, j1 + 1) && j1 + 1 < j2 <= j1 + 4 && j2 < |s| && s[j2] == '.'
    requires j3 == DigitRun(s, j2 + 1) && j2 + 1 < j3 <= j2 + 4 && j3 < |s| && s[j3] == '.'
    requires j3 + 1 < DigitRun(s, j3 + 1)
    ensures StartsWithQuad(s)
  {
    var j4 := DigitRun(s, j3 + 1);
    var e := if j4 < j3 + 4 then j4 else j3 + 4;
    DigitRunDigits(s, 0);
    DigitRunDigits(s, j1 + 1);
    DigitRunDigits(s, j2 + 1);
    DigitRunDigits(s, j3 + 1);
    QuadOfCuts(s, j1, j2, j3, e);
  }

  /** Peels the first group off a dotted text. */
  lemma DottedStep(s: string, i: nat, groups: nat)
    requires i <= |s| && DottedAt(s, i, groups + 1)
    ensures var j := DigitRun(s, i); i < j <= i + 3 && j < |s| && s[j] == '.' && DottedAt(s, j + 1, groups)
  {
  }

  /** Digit runs of one to three cut by dots at `j1`, `j2` and `j3`, the last one cut at `e`, are
      four octets joined by dots in front of the rest. */
  lemma QuadOfCuts(s: string, j1: nat, j2: nat, j3: nat, e: nat)
    requires 0 < j1 <= 3 && j1 + 1 < j2 <= j1 + 4 && j2 + 1 < j3 <= j2 + 4 && j3 + 1 < e <= j3 + 4
    requires e <= |s| && s[j1] == '.' && s[j2] == '.' && s[j3] == '.'
    requires forall k :: 0 <= k < j1 ==> IsDigit(s[k])
    requires forall k :: j1 + 1 <= k < j2 ==> IsDigit(s[k])
    requires forall k :: j2 + 1 <= k < j3 ==> IsDigit(s[k])
    requires forall k :: j3 + 1 <= k < e ==> IsDigit(s[k])
    ensures StartsWithQuad(s)
  {
    OctetSlice(s, 0, j1);
    OctetSlice(s, j1 + 1, j2);
    OctetSlice(s, j2 + 1, j3);
    OctetSlice(s, j3 + 1, e);
    CutAtDot(s, j1, j2);
    CutAtDot(s, j2, j3);
    CutAtDot(s, j3, e);
    assert s == s[..e] + s[e..];
  }

  /** One to three digits in a row make an octet. */
  lemma OctetSlice(s: string, i: nat, j: nat)
    requires i < j <= i + 3 && j <= |s|
    requires forall k :: i <= k < j ==> IsDigit(s[k])
    ensures Octet(s[i..j])
  {
    forall k | 0 <= k < j - i ensures IsDigit(s[i..j][k]) {
      assert s[i..j][k] == s[i + k];
    }
  }

  /** The prefix up to `j` is the prefix up to the dot at `i`, the dot, and what lies between. */
  lemma CutAtDot(s: string, i: nat, j: nat)
    requires i < j <= |s| && s[i] == '.'
    ensures s[..j] == s[..i] + "." + s[i + 1..j]
  {
  }
}
