/** The export half of `run` (lines 263-288) and the per-kind exporters it calls: the typed
    objects, the process dedup by command line, the IPv4/IPv6 choice, the groupings of the
    non-empty categories, the analysis object and the bundle. The stix2 objects are plain tagged
    values here. */
module Export {
  import opened Wrappers
  import opened Text
  import opened Observables
  import opened Fields
  import opened Catalog

  /** The custom properties every exported object carries. */
  datatype Provenance = Provenance(containerId: string, timestamp: string, fullOutput: string)

  /** The typed observables of the bundle. */
  datatype StixObject =
    | File(name: string, prov: Provenance)
    | IPv4Address(value: string, prov: Provenance)
    | IPv6Address(value: string, prov: Provenance)
    | Process(commandLine: string, prov: Provenance, executablePath: string)
    | DomainName(value: string, prov: Provenance)

  /** A named grouping (context "suspicious-activity") and the objects it references. */
  datatype Grouping = Grouping(name: string, objectRefs: seq<StixObject>)

  /** The members of the bundle: the observables, the analysis object, the groupings. */
  datatype BundleObject =
    | Observed(obj: StixObject)
    | MalwareAnalysis(product: string, scoRefs: seq<StixObject>)
    | Group(grouping: Grouping)

  datatype Bundle = Bundle(objects: seq<BundleObject>)

  function ProvenanceOf(ob: Observable): Provenance {
    Provenance(ob.containerId, ob.timestamp, ob.command)
  }

  // ---------------------------------------------------------------------------------------------
  // Files and domains: one object per record

  function FileObjects(obs: seq<Observable>): seq<StixObject> {
    seq(|obs|, i requires 0 <= i < |obs| => File(obs[i].name, ProvenanceOf(obs[i])))
  }

  function DomainObjects(obs: seq<Observable>): seq<StixObject> {
    seq(|obs|, i requires 0 <= i < |obs| => DomainName(obs[i].name, ProvenanceOf(obs[i])))
  }

  // ---------------------------------------------------------------------------------------------
  // Hosts

  /** The address object of one host record. The variant is chosen by the IPv4 shape of the raw
      line, not of the name; the value is the name either way. */
  function HostObject(ob: Observable): (o: StixObject)
    ensures o.IPv4Address? || o.IPv6Address?
    ensures o.value == ob.name && o.prov == ProvenanceOf(ob)
  {
    if LooksLikeIPv4(ob.command) then IPv4Address(ob.name, ProvenanceOf(ob))
    else IPv6Address(ob.name, ProvenanceOf(ob))
  }

  /** The variant depends on the line alone: two records of the same line get the same variant,
      whatever their names. */
  lemma HostKindIgnoresName(a: Observable, b: Observable)
    requires a.command == b.command
    ensures HostObject(a).IPv4Address? <==> HostObject(b).IPv4Address?
  {
  }

  /** A line that does not start with a digit (a container token starting with a letter, say)
      always gives IPv6, even for a dotted IPv4 name; a line that does start with a dotted quad
      gives IPv4. */
  lemma HostKindOfLine(ob: Observable, a: string, b: string, c: string, d: string, rest: string)
    ensures ob.command != [] && !IsDigit(ob.command[0]) ==> HostObject(ob).IPv6Address?
    ensures Octet(a) && Octet(b) && Octet(c) && Octet(d) && ob.command == a + "." + b + "." + c + "." + d + rest
      ==> HostObject(ob).IPv4Address?
  {
    if Octet(a) && Octet(b) && Octet(c) && Octet(d) && ob.command == a + "." + b + "." + c + "." + d + rest {
      IPv4Complete(a, b, c, d, rest);
    }
  }

  /** `parse_hosts_to_ip_mac_addresses`: one address object per record, in order. */
  method HostsToObjects(obs: seq<Observable>) returns (hosts: seq<StixObject>)
    ensures |hosts| == |obs|
    ensures forall i :: 0 <= i < |obs| ==> hosts[i] == HostObject(obs[i])
  {
    hosts := [];
    for i := 0 to |obs|
      invariant |hosts| == i
      invariant forall k :: 0 <= k < i ==> hosts[k] == HostObject(obs[k])
    {
      hosts := hosts + [HostObject(obs[i])];
    }
  }

  // ---------------------------------------------------------------------------------------------
  // Processes

  /** The process object of one record: its name is the command line, and the executable path
      is read off the raw line. */
  function ProcessObject(ob: Observable): (o: StixObject)
    ensures o.Process? && o.commandLine == ob.name && o.prov == ProvenanceOf(ob)
    ensures o.executablePath == GetExecutablePath(ob.command) && '"' !in o.executablePath
  {
    Process(ob.name, ProvenanceOf(ob), GetExecutablePath(ob.command))
  }

  /** Some process object of `known` has this command line. */
  predicate HasCommandLine(known: seq<StixObject>, commandLine: string)
    requires forall i :: 0 <= i < |known| ==> known[i].Process?
  {
    exists i | 0 <= i < |known| :: known[i].commandLine == commandLine
  }

  /** `is_known_process`: an early-return search of the exported processes for the record's
      name. */
  method IsKnownProcess(known: seq<StixObject>, process: Observable) returns (b: bool)
    requires forall i :: 0 <= i < |known| ==> known[i].Process?
    ensures b <==> exists i :: 0 <= i < |known| && known[i].commandLine == process.name
  {
    for i := 0 to |known|
      invariant forall k :: 0 <= k < i ==> known[k].commandLine != process.name
    {
      if process.name == known[i].commandLine {
        return true;
      }
    }
    return false;
  }

  /** The dedup of `parse_observables_to_processes`, as a fold over the records: a record whose
      name is already a command line is skipped. */
  function DedupByCommandLine(obs: seq<Observable>): (ps: seq<StixObject>)
    ensures forall i :: 0 <= i < |ps| ==> ps[i].Process? && '"' !in ps[i].executablePath
  {
    if obs == [] then []
    else
      var prev := DedupByCommandLine(obs[..|obs| - 1]);
      var last := obs[|obs| - 1];
      if HasCommandLine(prev, last.name) then prev else prev + [ProcessObject(last)]
  }

  /** `parse_observables_to_processes`: the loop that asks `is_known_process` before each
      append. */
  method ProcessesToObjects(obs: seq<Observable>) returns (procs: seq<StixObject>)
    ensures procs == DedupByCommandLine(obs)
  {
    procs := [];
    for i := 0 to |obs|
      invariant procs == DedupByCommandLine(obs[..i])
    {
      assert obs[..i + 1][..i] == obs[..i];
      var known := IsKnownProcess(procs, obs[i]);
      if !known {
        procs := procs + [ProcessObject(obs[i])];
      }
    }
    assert obs[..|obs|] == obs;
  }

  /** The record at `i` is the first with its name. */
  ghost predicate FirstWithName(obs: seq<Observable>, i: nat)
    requires i < |obs|
  {
    forall m :: 0 <= m < i ==> obs[m].name != obs[i].name
  }

  /** Reference definition: the process objects of the records that are first with their name,
      in input order. */
  ghost function FirstProcesses(obs: seq<Observable>): seq<StixObject> {
    if obs == [] then []
    else
      FirstProcesses(obs[..|obs| - 1])
      + (if FirstWithName(obs, |obs| - 1) then [ProcessObject(obs[|obs| - 1])] else [])
  }

  /** The dedup knows exactly the names of its input. */
  lemma {:induction false} DedupKnowsInputNames(obs: seq<Observable>, name: string)
    ensures HasCommandLine(DedupByCommandLine(obs), name) <==>
      exists i :: 0 <= i < |obs| && obs[i].name == name
  {
    if obs != [] {
      var init := obs[..|obs| - 1];
      DedupKnowsInputNames(init, name);
      var prev := DedupByCommandLine(init);
      var ps := DedupByCommandLine(obs);
      if HasCommandLine(ps, name) {
        var j :| 0 <= j < |ps| && ps[j].commandLine == name;
        if j < |prev| {
          var i :| 0 <= i < |init| && init[i].name == name;
          assert obs[i].name == name;
        }
      }
      if exists i :: 0 <= i < |obs| && obs[i].name == name {
        var i :| 0 <= i < |obs| && obs[i].name == name;
        if i < |init| {
          assert init[i].name == name;
          var j :| 0 <= j < |prev| && prev[j].commandLine == name;
          assert ps[j] == prev[j];
        } else if !HasCommandLine(prev, name) {
          assert ps[|prev|] == ProcessObject(obs[i]);
        }
      }
    }
  }

  /** The dedup exports, in input order, one process per name, built from the first record with
      that name (its provenance and executable path). */
  lemma {:induction false} DedupIsFirstOccurrences(obs: seq<Observable>)
    ensures DedupByCommandLine(obs) == FirstProcesses(obs)
  {
    if obs != [] {
      var init, last := obs[..|obs| - 1], obs[|obs| - 1];
      DedupIsFirstOccurrences(init);
      DedupKnowsInputNames(init, last.name);
      if FirstWithName(obs, |obs| - 1) {
        forall i | 0 <= i < |init| ensures init[i].name != last.name {
          assert init[i] == obs[i];
        }
      } else {
        var m :| 0 <= m < |obs| - 1 && obs[m].name == last.name;
        assert init[m].name == last.name;
      }
    }
  }

  /** No two process objects share a command line. */
  predicate DistinctCommandLines(ps: seq<StixObject>)
    requires forall i :: 0 <= i < |ps| ==> ps[i].Process?
  {
    forall i, j :: 0 <= i < j < |ps| ==> ps[i].commandLine != ps[j].commandLine
  }

  /** The exported command lines are pairwise distinct. */
  lemma {:induction false} DedupCommandLinesDistinct(obs: seq<Observable>)
    ensures DistinctCommandLines(DedupByCommandLine(obs))
  {
    if obs != [] {
      var prev, last := DedupByCommandLine(obs[..|obs| - 1]), obs[|obs| - 1];
      DedupCommandLinesDistinct(obs[..|obs| - 1]);
      if !HasCommandLine(prev, last.name) {
        var ps := prev + [ProcessObject(last)];
        assert DedupByCommandLine(obs) == ps;
        forall i, j | 0 <= i < j < |ps| ensures ps[i].commandLine != ps[j].commandLine {
          assert ps[i] == prev[i];
          if j < |prev| {
            assert ps[j] == prev[j];
          }
        }
      }
    }
  }

  // ---------------------------------------------------------------------------------------------
  // Groupings, analysis object, bundle

  /** The exporter `run` dispatches a category to: files, hosts, processes or domains. */
  datatype Kind = FileKind | HostKind | ProcessKind | DomainKind

  /** The dispatch on the category name; a name none of the branches takes is not exported. */
  function KindOf(key: string): Option<Kind> {
    if StartsWith(key, "files") then Some(FileKind)
    else if key == HostsConnected then Some(HostKind)
    else if key == ProcessesCreated then Some(ProcessKind)
    else if key == Domains then Some(DomainKind)
    else None
  }

  /** The objects the exporter of `kind` makes of a category's records. */
  function KindObjects(kind: Kind, content: seq<Observable>): seq<StixObject> {
    match kind
    case FileKind => FileObjects(content)
    case HostKind => seq(|content|, i requires 0 <= i < |content| => HostObject(content[i]))
    case ProcessKind => DedupByCommandLine(content)
    case DomainKind => DomainObjects(content)
  }

  /** The groupings of lines 263-288: one per non-empty category the dispatch takes, in table
      order. */
  function ExportGroupings(keys: seq<string>, finals: seq<seq<Observable>>): seq<Grouping>
    requires |keys| == |finals|
  {
    if keys == [] then []
    else
      var n := |keys| - 1;
      var before := ExportGroupings(keys[..n], finals[..n]);
      if finals[n] != [] && KindOf(keys[n]).Some? then
        before + [Grouping(keys[n], KindObjects(KindOf(keys[n]).value, finals[n]))]
      else before
  }

  /** The names of the categories that get a grouping: the non-empty ones the dispatch takes. */
  function ExportedKeys(keys: seq<string>, finals: seq<seq<Observable>>): (ks: seq<string>)
    requires |keys| == |finals|
    ensures forall k :: k in ks ==> exists i :: 0 <= i < |keys| && keys[i] == k && finals[i] != [] && KindOf(k).Some?
    ensures forall i :: 0 <= i < |keys| && finals[i] != [] && KindOf(keys[i]).Some? ==> keys[i] in ks
  {
    if keys == [] then []
    else
      var n := |keys| - 1;
      var before := ExportedKeys(keys[..n], finals[..n]);
      assert forall i :: 0 <= i < n ==> keys[..n][i] == keys[i] && finals[..n][i] == finals[i];
      before + (if finals[n] != [] && KindOf(keys[n]).Some? then [keys[n]] else [])
  }

  function Names(gs: seq<Grouping>): seq<string> {
    seq(|gs|, i requires 0 <= i < |gs| => gs[i].name)
  }

  /** A grouping exists for a category iff it is non-empty (and dispatched), in table order; no
      grouping is empty. */
  lemma {:induction false} GroupingsOfNonEmptyCategories(keys: seq<string>, finals: seq<seq<Observable>>)
    requires |keys| == |finals|
    ensures Names(ExportGroupings(keys, finals)) == ExportedKeys(keys, finals)
    ensures forall g :: g in ExportGroupings(keys, finals) ==> g.objectRefs != []
  {
    if keys != [] {
      var n := |keys| - 1;
      GroupingsOfNonEmptyCategories(keys[..n], finals[..n]);
      var gs := ExportGroupings(keys, finals);
      if finals[n] != [] && KindOf(keys[n]).Some? {
        var content := finals[n];
        if KindOf(keys[n]).value == ProcessKind {
          DedupKnowsInputNames(content, content[0].name);
        }
      }
    }
  }

  /** With distinct, dispatched category names, a name is exported iff its category is
      non-empty. */
  lemma ExportedKeyIffNonEmpty(keys: seq<string>, finals: seq<seq<Observable>>)
    requires |keys| == |finals|
    requires forall i, j :: 0 <= i < j < |keys| ==> keys[i] != keys[j]
    requires forall i :: 0 <= i < |keys| ==> KindOf(keys[i]).Some?
    ensures forall i :: 0 <= i < |keys| ==> (keys[i] in ExportedKeys(keys, finals) <==> finals[i] != [])
  {
    forall i | 0 <= i < |keys| ensures keys[i] in ExportedKeys(keys, finals) <==> finals[i] != [] {
      if keys[i] in ExportedKeys(keys, finals) {
        var j :| 0 <= j < |keys| && keys[j] == keys[i] && finals[j] != [] && KindOf(keys[i]).Some?;
        assert i == j;
      }
    }
  }

  /** With distinct, dispatched category names, the groupings are named by the exported keys, one
      per non-empty category, and none is empty. */
  lemma ExportedGroupingsByKey(keys: seq<string>, finals: seq<seq<Observable>>)
    requires |keys| == |finals|
    requires forall i, j :: 0 <= i < j < |keys| ==> keys[i] != keys[j]
    requires forall i :: 0 <= i < |keys| ==> KindOf(keys[i]).Some?
    ensures Names(ExportGroupings(keys, finals)) == ExportedKeys(keys, finals)
    ensures forall i :: 0 <= i < |keys| ==> (keys[i] in Names(ExportGroupings(keys, finals)) <==> finals[i] != [])
    ensures forall g :: g in ExportGroupings(keys, finals) ==> g.objectRefs != []
  {
    GroupingsOfNonEmptyCategories(keys, finals);
    ExportedKeyIffNonEmpty(keys, finals);
  }

  /** Every table name is dispatched, so with the table a grouping exists iff its category is
      non-empty. */
  lemma ClassifierNamesDispatched()
    ensures forall c :: c in Classifiers() ==> KindOf(c.name).Some?
  {
  }

  /** All objects of the groupings, in order (`all_stix_objects` before the analysis object). */
  function AllObjects(gs: seq<Grouping>): seq<StixObject> {
    if gs == [] then [] else AllObjects(gs[..|gs| - 1]) + gs[|gs| - 1].objectRefs
  }

  /** The bundle: every object, then the analysis object referencing all of them, then the
      groupings. */
  function BundleOf(objs: seq<StixObject>, gs: seq<Grouping>): (b: Bundle)
    ensures |b.objects| == |objs| + 1 + |gs|
    ensures b.objects[|objs|] == MalwareAnalysis("cuckoo-sandbox", objs)
    ensures forall i :: 0 <= i < |objs| ==> b.objects[i] == Observed(objs[i])
    ensures forall i :: 0 <= i < |gs| ==> b.objects[|objs| + 1 + i] == Group(gs[i])
  {
    Bundle(seq(|objs|, i requires 0 <= i < |objs| => Observed(objs[i]))
           + [MalwareAnalysis("cuckoo-sandbox", objs)]
           + seq(|gs|, i requires 0 <= i < |gs| => Group(gs[i])))
  }

  /** Every object a grouping references is among the analysis object's references. */
  lemma {:induction false} GroupedObjectsAnalysed(gs: seq<Grouping>, g: Grouping, o: StixObject)
    requires g in gs && o in g.objectRefs
    ensures o in AllObjects(gs)
  {
    var n := |gs| - 1;
    if g != gs[n] {
      var i :| 0 <= i < |gs| && gs[i] == g;
      assert gs[..n][i] == g;
      GroupedObjectsAnalysed(gs[..n], g, o);
    }
  }

  /** The loop of lines 263-288: each category is exported by its kind's exporter, its grouping
      appended, and its objects added to the list of all objects. */
  method ExportCategories(keys: seq<string>, finals: seq<seq<Observable>>)
    returns (groupings: seq<Grouping>, objects: seq<StixObject>)
    requires |keys| == |finals|
    ensures groupings == ExportGroupings(keys, finals)
    ensures objects == AllObjects(groupings)
  {
    groupings, objects := [], [];
    for n := 0 to |keys|
      invariant groupings == ExportGroupings(keys[..n], finals[..n])
      invariant objects == AllObjects(groupings)
    {
      assert keys[..n + 1][..n] == keys[..n] && finals[..n + 1][..n] == finals[..n];
      var content := finals[n];
      var kind := KindOf(keys[n]);
      if content != [] && kind.Some? {
        var objs;
        match kind.value {
          case FileKind => objs := FileObjects(content);
          case HostKind => objs := HostsToObjects(content);
          case ProcessKind => objs := ProcessesToObjects(content);
          case DomainKind => objs := DomainObjects(content);
        }
        assert objs == KindObjects(kind.value, content);
        var g := Grouping(keys[n], objs);
        assert (groupings + [g])[..|groupings|] == groupings;
        groupings := groupings + [g];
        objects := objects + objs;
      }
    }
    assert keys[..|keys|] == keys && finals[..|finals|] == finals;
  }
}
