/** The classifier table built by `init`: per category its keywords, its extraction patterns and
    the `prepare` function that turns a capture into an observable's name; and the keyword union
    that `line_is_relevant` tests. */
module Catalog {
  import opened Wrappers
  import opened Text
  import opened Patterns

  // ---------------------------------------------------------------------------------------------
  // The `prepare` functions

  /** The `prepare` of the file categories: an absolute path stays as it is, any other name is put
      under the working directory. */
  function NormalizePath(cwd: string, ob: string): (r: string)
    ensures (cwd == "" || StartsWith(cwd, "/")) ==> StartsWith(r, "/")
    ensures |ob| <= |r| && r[|r| - |ob|..] == ob
  {
    if StartsWith(ob, "/") then ob else cwd + "/" + ob
  }

  /** With an absolute (or empty) working directory, normalizing a normalized path changes
      nothing. */
  lemma NormalizePathIdempotent(cwd: string, ob: string)
    requires cwd == "" || StartsWith(cwd, "/")
    ensures NormalizePath(cwd, NormalizePath(cwd, ob)) == NormalizePath(cwd, ob)
  {
  }

  /** The `prepare` of `hosts_connected`: the address and the port of a `connect` call. */
  function JoinHostPort(addr: string, port: string): string {
    addr + ":" + port
  }

  /** Index of the last `c` in `s`. */
  function LastIndexOf(s: string, c: char): (r: Option<nat>)
    ensures r.Some? ==> r.value < |s| && s[r.value] == c
    ensures r.Some? ==> forall k :: r.value < k < |s| ==> s[k] != c
    ensures r.None? ==> c !in s
  {
    if s == [] then None
    else if s[|s| - 1] == c then Some(|s| - 1)
    else
      assert s == s[..|s| - 1] + [s[|s| - 1]];
      LastIndexOf(s[..|s| - 1], c)
  }

  /** Reads a host name back as address and port, cutting at its last ':'. */
  function SplitHostPort(name: string): Option<(string, string)> {
    match LastIndexOf(name, ':')
    case None => None
    case Some(k) => Some((name[..k], name[k + 1..]))
  }

  /** Round trip: a port without ':' (any TCP or UDP port number) is read back from the host name
      together with the address, even an IPv6 address full of ':'. */
  lemma HostPortRoundTrip(addr: string, port: string)
    requires ':' !in port
    ensures SplitHostPort(JoinHostPort(addr, port)) == Some((addr, port))
  {
    var s := JoinHostPort(addr, port);
    assert s[|addr|] == ':';
    assert forall k :: |addr| < k < |s| ==> s[k] == port[k - |addr| - 1];
    var k := LastIndexOf(s, ':').value;
    assert k == |addr|;
    assert s[..k] == addr && s[k + 1..] == port;
  }

  /** The `prepare` of `processes_created`: the argument list with every '"' and every ','
      removed. */
  function FlattenArgs(ob: string): (r: string)
    ensures '"' !in r && ',' !in r
  {
    RemoveChar(RemoveChar(ob, '"'), ',')
  }

  /** One pass that keeps every character except '"' and ','. */
  function KeepArgChars(s: string): string {
    if s == [] then []
    else (if s[0] == '"' || s[0] == ',' then [] else [s[0]]) + KeepArgChars(s[1..])
  }

  /** The two `replace` calls remove exactly the quotes and the commas, keeping every other
      character in order. */
  lemma {:induction false} FlattenArgsKeepsTheRest(ob: string)
    ensures FlattenArgs(ob) == KeepArgChars(ob)
  {
    if ob != [] {
      var head := if ob[0] == '"' then [] else [ob[0]];
      RemoveCharConcat(head, RemoveChar(ob[1..], '"'), ',');
      FlattenArgsKeepsTheRest(ob[1..]);
    }
  }

  /** Flattening a flattened command line changes nothing. */
  lemma FlattenArgsIdempotent(ob: string)
    ensures FlattenArgs(FlattenArgs(ob)) == FlattenArgs(ob)
  {
  }

  /** The `prepare` of `domains` (`ip2domain`): the name the reverse lookup gives, or the address
      itself when the lookup fails in any way. */
  function ReverseLookup(lookup: string -> Option<string>, ip: string): (r: string)
    ensures lookup(ip).None? ==> r == ip
  {
    match lookup(ip)
    case Some(host) => host
    case None => ip
  }

  /** Which `prepare` a classifier uses. */
  datatype Prep = PathPrep | HostPrep | ArgsPrep | DomainPrep

  /** The classifier's `prepare` applied to one capture; only the hosts classifier takes pairs. */
  function Prepare(prep: Prep, cwd: string, lookup: string -> Option<string>, cap: Capture): string
    requires cap.Two? <==> prep.HostPrep?
  {
    match prep
    case PathPrep => NormalizePath(cwd, cap.value)
    case HostPrep => JoinHostPort(cap.first, cap.second)
    case ArgsPrep => FlattenArgs(cap.value)
    case DomainPrep => ReverseLookup(lookup, cap.value)
  }

  // ---------------------------------------------------------------------------------------------
  // The table

  /** One entry of the classifier table. */
  datatype Classifier = Classifier(name: string, keyWords: seq<string>, patterns: seq<Pattern>, prep: Prep)

  const FilesRemoved := "files_removed"
  const FilesRead := "files_read"
  const FilesWritten := "files_written"
  const HostsConnected := "hosts_connected"
  const ProcessesCreated := "processes_created"
  const Domains := "domains"

  /** Ids of the patterns whose matches an `Extractors` value supplies: the two `openat` patterns,
      the `link`/`rename` pattern, and the two `connect` patterns. */
  const OpenatRead: nat := 0
  const OpenatWrite: nat := 1
  const LinkOrRename: nat := 2
  const ConnectHostPort: nat := 3
  const ConnectAddress: nat := 4

  /** The six classifiers in the order of the source's table. */
  function Classifiers(): seq<Classifier> {
    [
      Classifier(FilesRemoved, ["unlink", "unlinkat", "rmdir"],
        [Delimited("unlink(", false, '"', '"'), Delimited("unlinkat(", true, '"', '"'),
         Delimited("rmdir(", false, '"', '"')], PathPrep),
      Classifier(FilesRead, ["openat"], [Single(OpenatRead)], PathPrep),
      Classifier(FilesWritten, ["openat", "rename", "link", "mkdir"],
        [Single(OpenatWrite), Single(LinkOrRename), Delimited("mkdir(", false, '"', '"')], PathPrep),
      Classifier(HostsConnected, ["connect"], [Pair(ConnectHostPort)], HostPrep),
      Classifier(ProcessesCreated, ["execve"], [Delimited("execve(", true, '[', ']')], ArgsPrep),
      Classifier(Domains, ["connect"], [Single(ConnectAddress)], DomainPrep)
    ]
  }

  /** The `hosts_connected` regex writes its address family `{AF_INET(?:6) ` (the group around
      "6" is not optional), so it matches only on a line holding "{AF_INET6 ": an extractor
      honouring that finds no host-and-port pair on any other line. */
  ghost predicate HostsNeedInet6(ex: Extractors) {
    forall line :: !Contains(line, "{AF_INET6 ") ==> ex.two(ConnectHostPort, line) == []
  }

  /** Every pattern of the classifier yields captures of the shape its `prepare` takes. */
  predicate Fits(c: Classifier) {
    forall j :: 0 <= j < |c.patterns| ==> (c.patterns[j].Pair? <==> c.prep.HostPrep?)
  }

  /** Every classifier of the table fits. */
  predicate WellFormed(cats: seq<Classifier>) {
    forall i :: 0 <= i < |cats| ==> Fits(cats[i])
  }

  /** Every delimited pattern's literal prefix contains one of its classifier's keywords, so the
      line filter never hides one of its matches. */
  ghost predicate KeyWordsCover(cats: seq<Classifier>) {
    forall i, j :: 0 <= i < |cats| && 0 <= j < |cats[i].patterns| && cats[i].patterns[j].Delimited? ==>
      exists k :: 0 <= k < |cats[i].keyWords| && Contains(cats[i].patterns[j].prefix, cats[i].keyWords[k])
  }

  /** The table is well formed and its keywords cover its delimited patterns. */
  lemma ClassifiersWellFormed()
    ensures WellFormed(Classifiers()) && KeyWordsCover(Classifiers())
    ensures |Classifiers()| == 6
  {
    var cats := Classifiers();
    assert OccursAt("unlink(", "unlink", 0);
    assert OccursAt("unlinkat(", "unlinkat", 0);
    assert OccursAt("rmdir(", "rmdir", 0);
    assert OccursAt("mkdir(", "mkdir", 0);
    assert OccursAt("execve(", "execve", 0);
    assert Contains(cats[0].patterns[0].prefix, cats[0].keyWords[0]);
    assert Contains(cats[0].patterns[1].prefix, cats[0].keyWords[1]);
    assert Contains(cats[0].patterns[2].prefix, cats[0].keyWords[2]);
    assert Contains(cats[2].patterns[2].prefix, cats[2].keyWords[3]);
    assert Contains(cats[4].patterns[0].prefix, cats[4].keyWords[0]);
  }

  /** The keyword union of line 84: every classifier's keywords, in table order. */
  function KeyWordUnion(cats: seq<Classifier>): (kws: seq<string>)
    ensures forall i, k :: 0 <= i < |cats| && 0 <= k < |cats[i].keyWords| ==> cats[i].keyWords[k] in kws
    ensures forall w :: w in kws ==> exists i :: 0 <= i < |cats| && w in cats[i].keyWords
  {
    if cats == [] then []
    else
      var rest := KeyWordUnion(cats[1..]);
      assert forall i :: 1 <= i < |cats| ==> cats[i] == cats[1..][i - 1];
      cats[0].keyWords + rest
  }

  /** `line_is_relevant`: the line contains one of the keywords. */
  predicate Relevant(kws: seq<string>, line: string) {
    exists i | 0 <= i < |kws| :: Contains(line, kws[i])
  }

  /** The line filter hides no match of a hand-scanned pattern: a line on which a delimited
      pattern of a covered table finds a capture contains one of the union's keywords. */
  lemma DelimitedMatchIsRelevant(cats: seq<Classifier>, i: nat, j: nat, ex: Extractors, line: string)
    requires KeyWordsCover(cats) && i < |cats| && j < |cats[i].patterns|
    requires cats[i].patterns[j].Delimited? && RunPattern(cats[i].patterns[j], ex, line) != []
    ensures Relevant(KeyWordUnion(cats), line)
  {
    var p := cats[i].patterns[j];
    assert FindAll(line, p) != [];
    var k :| 0 <= k < |cats[i].keyWords| && Contains(p.prefix, cats[i].keyWords[k]);
    ContainsTransitive(line, p.prefix, cats[i].keyWords[k]);
    var kws := KeyWordUnion(cats);
    var n :| 0 <= n < |kws| && kws[n] == cats[i].keyWords[k];
  }
}
