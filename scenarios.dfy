/** Worked traces over the whole model: a relative `unlink` lands under the working directory,
    the build-script line is itself a created process, and processes of one command line in two
    containers collapse on export while staying two records before it. */
module Scenarios {
  import opened Wrappers
  import opened Text
  import opened Observables
  import opened Fields
  import opened Patterns
  import opened Catalog
  import opened Lines
  import opened WorkingDir
  import opened Accumulate
  import opened Export
  import opened Reporter

  /** A trace line `unlink("path"...`. */
  function UnlinkCall(path: string, rest: string): string {
    "unlink(" + "\"" + path + "\"" + rest
  }

  /** A trace line `execve(... [args]...`. */
  function ExecveCall(junk: string, args: string, rest: string): string {
    "execve(" + junk + "[" + args + "]" + rest
  }

  /** A relative path removed by `unlink` on a line of container `token` is reported in
      `files_removed` under the working directory, with that token as its container id, unless the
      whitelist suppresses it. */
  lemma {:induction false} RelativeUnlinkUnderCwd(env: Env, lines: seq<string>, token: string, path: string, rest: string)
    requires forall k :: 0 <= k < |token| ==> IsIdChar(token[k])
    requires '"' !in path && '\n' !in path && !StartsWith(path, "/")
    requires token + "|" + UnlinkCall(path, rest) in lines
    requires !IsOnWhitelist(env.cwd + "/" + path)
    ensures (ClassifiersWellFormed(); var cats := Classifiers(); var line := token + "|" + UnlinkCall(path, rest);
      Known(Categories(cats, KeyWordUnion(cats), env, lines)[0], Observable(env.cwd + "/" + path, token, line, Timestamp(line))))
  {
    var cats := Classifiers();
    ClassifiersWellFormed();
    var line := token + "|" + UnlinkCall(path, rest);
    UnlinkLineRecord(env, token, path, rest);
    ContainerIdOfToken(token, UnlinkCall(path, rest));
    RecordReachesCategory(cats, KeyWordUnion(cats), env, lines, 0, line, MakeRecord(env.cwd + "/" + path, line));
  }

  /** Such a line is relevant, and its first `files_removed` record names the path under the
      working directory. */
  lemma UnlinkLineRecord(env: Env, token: string, path: string, rest: string)
    requires forall k :: 0 <= k < |token| ==> IsIdChar(token[k])
    requires '"' !in path && '\n' !in path && !StartsWith(path, "/")
    ensures (ClassifiersWellFormed(); var cats := Classifiers(); var line := token + "|" + UnlinkCall(path, rest);
      && Relevant(KeyWordUnion(cats), line)
      && MakeRecord(env.cwd + "/" + path, line) in Records(cats[0], env, line))
  {
    var cats := Classifiers();
    ClassifiersWellFormed();
    var lead := token + "|";
    var line := token + "|" + UnlinkCall(path, rest);
    var p := cats[0].patterns[0];
    assert '(' !in lead by {
      assert forall k :: 0 <= k < |lead| ==> lead[k] == '|' || IsIdChar(lead[k]);
    }
    UnlinkFirstCapture(lead, path, rest);
    var caps := RunPattern(p, env.ex, line);
    assert PatternRecords(cats[0], env, 1, line) == [] + CaptureRecords(cats[0], env, caps, line);
    PatternRecordsGrow(cats[0], env, 1, 3, line);
    assert Records(cats[0], env, line)[0] == MakeRecord(env.cwd + "/" + path, line);
    DelimitedMatchIsRelevant(cats, 0, 0, env.ex, line);
  }

  /** The argument list of any `execve` line with a bracketed list, behind any lead without '('
      (a container token, a timestamp), becomes a `processes_created` record, so that category is
      non-empty once such a line is in the trace. */
  lemma {:induction false} ExecveLineIsAProcess(env: Env, lines: seq<string>, lead: string, junk: string, args: string, rest: string)
    requires '(' !in lead
    requires '[' !in junk && '\n' !in junk && ']' !in args && '\n' !in args
    requires Kept(MakeRecord(FlattenArgs(args), lead + ExecveCall(junk, args, rest)))
    requires lead + ExecveCall(junk, args, rest) in lines
    ensures (ClassifiersWellFormed(); var cats := Classifiers();
      Categories(cats, KeyWordUnion(cats), env, lines)[4] != [])
  {
    var cats := Classifiers();
    ClassifiersWellFormed();
    var line := lead + ExecveCall(junk, args, rest);
    var p := cats[4].patterns[0];
    ExecveFirstCapture(lead, junk, args, rest);
    var caps := RunPattern(p, env.ex, line);
    var y := MakeRecord(FlattenArgs(args), line);
    assert PatternRecords(cats[4], env, 1, line) == [] + CaptureRecords(cats[4], env, caps, line);
    assert Records(cats[4], env, line)[0] == y;
    DelimitedMatchIsRelevant(cats, 4, 0, env.ex, line);
    RecordReachesCategory(cats, KeyWordUnion(cats), env, lines, 4, line, y);
  }

  /** The `unlink` pattern captures the path of `unlink("path"` first, behind any lead without '('. */
  lemma UnlinkFirstCapture(lead: string, path: string, rest: string)
    requires '(' !in lead && '"' !in path && '\n' !in path
    ensures (ClassifiersWellFormed(); var s := lead + UnlinkCall(path, rest);
      FindAll(s, Classifiers()[0].patterns[0]) != [] && FindAll(s, Classifiers()[0].patterns[0])[0] == path)
  {
    ClassifiersWellFormed();
    var p := Classifiers()[0].patterns[0];
    assert p == Delimited("unlink(", false, '"', '"');
    assert p.prefix[..|p.prefix| - 1] == "unlink" && p.prefix[|p.prefix| - 1] == '(';
    assert '(' !in "unlink";
    assert p.prefix + "" + [p.open] + path + [p.close] + rest == UnlinkCall(path, rest) by {
      assert p.prefix + "" == p.prefix;
    }
    LastCharGuards(lead, p.prefix);
    FindAllFirstCapture(p, lead, "", path, rest);
  }

  /** The `execve` pattern captures the bracketed list of `execve(junk[args]` first, behind any
      lead without '('. */
  lemma ExecveFirstCapture(lead: string, junk: string, args: string, rest: string)
    requires '(' !in lead && '[' !in junk && '\n' !in junk && ']' !in args && '\n' !in args
    ensures (ClassifiersWellFormed(); var s := lead + ExecveCall(junk, args, rest);
      FindAll(s, Classifiers()[4].patterns[0]) != [] && FindAll(s, Classifiers()[4].patterns[0])[0] == args)
  {
    ClassifiersWellFormed();
    var p := Classifiers()[4].patterns[0];
    assert p == Delimited("execve(", true, '[', ']');
    assert p.prefix[..|p.prefix| - 1] == "execve";
    LastCharGuards(lead, p.prefix);
    FindAllFirstCapture(p, lead, junk, args, rest);
    assert p.prefix + junk + [p.open] + args + [p.close] + rest == ExecveCall(junk, args, rest);
  }

  /** Once the working directory resolves, any trace line `execve(... [args]...` whose flattened
      argument list is kept, behind any lead without '(' (a container token, say), gives the bundle
      a `processes_created` grouping. The build-script line
      `execve("/bin/sh", ["/bin/sh", "-c", "/build/dir/script.sh"], [])` is such a line (`junk` is
      `"/bin/sh", `), so even a trace holding nothing else exports that grouping. */
  lemma {:induction false} ExecveLineGivesProcessGrouping(trace: string, lookup: string -> Option<string>, ex: Extractors,
                                                          lead: string, junk: string, args: string, rest: string)
    requires ResolveCwd(trace).Some?
    requires '(' !in lead
    requires lead + ExecveCall(junk, args, rest) in SplitLines(trace)
    requires '[' !in junk && '\n' !in junk && ']' !in args && '\n' !in args
    requires FlattenArgs(args) != "" && !IsOnWhitelist(FlattenArgs(args))
    ensures ProcessesCreated in Names(GroupingsOf(ResolveCwd(trace).value, lookup, ex, trace))
  {
    var env := Env(ResolveCwd(trace).value, lookup, ex);
    ExecveLineIsAProcess(env, SplitLines(trace), lead, junk, args, rest);
    RunGroupings(trace, lookup, ex);
    assert Classifiers()[4].name == ProcessesCreated;
  }

  /** Under an extractor that honours the `{AF_INET6 ` spelling of the `hosts_connected` regex,
      the hosts classifier produces nothing from lines that do not hold "{AF_INET6 ". */
  lemma {:induction false} NoInet6NoHostRecords(env: Env, kws: seq<string>, lines: seq<string>)
    requires HostsNeedInet6(env.ex)
    requires forall l :: l in lines ==> !Contains(l, "{AF_INET6 ")
    ensures (ClassifiersWellFormed(); Produced(Classifiers()[3], kws, env, lines) == [])
  {
    ClassifiersWellFormed();
    if lines != [] {
      var cat := Classifiers()[3];
      var init, line := lines[..|lines| - 1], lines[|lines| - 1];
      assert forall l :: l in init ==> l in lines;
      NoInet6NoHostRecords(env, kws, init);
      assert cat.patterns == [Pair(ConnectHostPort)];
      assert env.ex.two(ConnectHostPort, line) == [];
      assert PatternRecords(cat, env, 1, line) == [] + CaptureRecords(cat, env, RunPattern(cat.patterns[0], env.ex, line), line);
    }
  }

  /** The `hosts_connected` list of such lines is empty. */
  lemma NoInet6EmptyHostList(env: Env, lines: seq<string>)
    requires HostsNeedInet6(env.ex)
    requires forall l :: l in lines ==> !Contains(l, "{AF_INET6 ")
    ensures (ClassifiersWellFormed(); var cats := Classifiers(); Categories(cats, KeyWordUnion(cats), env, lines)[3] == [])
  {
    ClassifiersWellFormed();
    var cats := Classifiers();
    var kws := KeyWordUnion(cats);
    NoInet6NoHostRecords(env, kws, lines);
    ScanLinesByCategory(cats, kws, env, EmptyCollections(cats), lines, 3);
    assert AddAll(EmptyCollections(cats)[3], []) == [];
  }

  /** A trace none of whose lines holds "{AF_INET6 " (one whose `connect` calls are all IPv4, say)
      exports no `hosts_connected` grouping, under an extractor that honours the regex's spelling. */
  lemma {:induction false} NoInet6NoHostGrouping(trace: string, lookup: string -> Option<string>, ex: Extractors)
    requires ResolveCwd(trace).Some? && HostsNeedInet6(ex)
    requires forall l :: l in SplitLines(trace) ==> !Contains(l, "{AF_INET6 ")
    ensures HostsConnected !in Names(GroupingsOf(ResolveCwd(trace).value, lookup, ex, trace))
  {
    NoInet6EmptyHostList(Env(ResolveCwd(trace).value, lookup, ex), SplitLines(trace));
    RunGroupings(trace, lookup, ex);
    assert Classifiers()[3].name == HostsConnected;
  }

  /** Two records of one command line in two containers stay two records of the category (they
      differ under `__eq__`) but export as a single process, the first one's. */
  lemma {:induction false} OneCommandLineTwoContainers(a: Observable, b: Observable)
    requires a.name == b.name && a.containerId != b.containerId
    ensures !Same(a, b) && Distinct([a, b])
    ensures DedupByCommandLine([a, b]) == [ProcessObject(a)]
  {
    assert [a, b][..1] == [a];
    assert [a][..0] == [];
    assert DedupByCommandLine([a]) == [ProcessObject(a)];
    assert [ProcessObject(a)][0].commandLine == b.name;
  }
}
