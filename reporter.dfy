/** The reporter object: its working directory (`CWD`), its classifier table and keyword union,
    the early-return line filter, the nested scan loops and `run`. */
module Reporter {
  import opened Wrappers
  import opened Text
  import opened Observables
  import opened Lines
  import opened Patterns
  import opened Catalog
  import opened WorkingDir
  import opened Accumulate
  import opened Export

  /** Why a run produces no bundle: the trace has no build-script line, so indexing the empty
      `findall` result raises. */
  datatype RunError = NoBuildScript

  /** The names of the classifiers, in table order (the keys of `final`). */
  function ClassifierNames(cats: seq<Classifier>): (names: seq<string>)
    ensures |names| == |cats| && forall i :: 0 <= i < |cats| ==> names[i] == cats[i].name
  {
    seq(|cats|, i requires 0 <= i < |cats| => cats[i].name)
  }

  /** Each category's sorted list for a trace whose working directory is `dir`. */
  function Finals(dir: string, lookup: string -> Option<string>, ex: Extractors, trace: string)
    : seq<seq<Observable>>
  {
    ClassifiersWellFormed();
    var cats := Classifiers();
    Categories(cats, KeyWordUnion(cats), Env(dir, lookup, ex), SplitLines(trace))
  }

  /** The groupings made of those lists. */
  function GroupingsOf(dir: string, lookup: string -> Option<string>, ex: Extractors, trace: string)
    : seq<Grouping>
  {
    ExportGroupings(ClassifierNames(Classifiers()), Finals(dir, lookup, ex, trace))
  }

  /** What `run` produces from a trace: no bundle when the working directory cannot be resolved,
      otherwise the bundle of the groupings of the scanned categories. */
  function RunSpec(trace: string, lookup: string -> Option<string>, ex: Extractors): Result<Bundle, RunError> {
    match ResolveCwd(trace)
    case None => Err(NoBuildScript)
    case Some(dir) =>
      var gs := GroupingsOf(dir, lookup, ex, trace);
      Ok(BundleOf(AllObjects(gs), gs))
  }

  /** A run fails exactly when the trace has no build-script line; otherwise its bundle holds one
      grouping per non-empty category, under the category's name, in table order, and the
      analysis object sits between the observables and the groupings. */
  lemma RunGroupings(trace: string, lookup: string -> Option<string>, ex: Extractors)
    ensures RunSpec(trace, lookup, ex).Err? <==> ResolveCwd(trace).None?
    ensures ResolveCwd(trace).Some? ==>
      var dir := ResolveCwd(trace).value;
      var gs := GroupingsOf(dir, lookup, ex, trace);
      var finals := Finals(dir, lookup, ex, trace);
      && RunSpec(trace, lookup, ex).value == BundleOf(AllObjects(gs), gs)
      && Names(gs) == ExportedKeys(ClassifierNames(Classifiers()), finals)
      && (forall i :: 0 <= i < |Classifiers()| ==> (Classifiers()[i].name in Names(gs) <==> finals[i] != []))
      && (forall g :: g in gs ==> g.objectRefs != [])
  {
    if ResolveCwd(trace).Some? {
      var dir := ResolveCwd(trace).value;
      var finals := Finals(dir, lookup, ex, trace);
      var keys := ClassifierNames(Classifiers());
      ClassifierNamesDispatched();
      ClassifierNamesDistinct();
      assert forall i :: 0 <= i < |keys| ==> keys[i] == Classifiers()[i].name && KindOf(keys[i]).Some?;
      ExportedGroupingsByKey(keys, finals);
    }
  }

  /** The six category names differ. */
  lemma ClassifierNamesDistinct()
    ensures forall i, j :: 0 <= i < j < |Classifiers()| ==> Classifiers()[i].name != Classifiers()[j].name
  {
    var cs := Classifiers();
    assert cs[0].name[6] == 'r' && cs[1].name[6] == 'r' && cs[2].name[6] == 'w';
    assert cs[0].name[8] == 'm' && cs[1].name[8] == 'a';
  }

  /** The reporter. `cwd` is the class attribute `CWD`, overwritten by `run`. */
  class Stix2 {
    var cwd: string
    var classifiers: seq<Classifier>
    var keyWords: seq<string>

    /** A reporter before `init`: the class's empty `CWD` and no table yet. */
    constructor ()
      ensures cwd == "" && classifiers == [] && keyWords == []
    {
      cwd := "";
      classifiers := [];
      keyWords := [];
    }

    /** `init`: installs the classifier table and its keyword union. */
    method Init()
      modifies this
      ensures classifiers == Classifiers() && keyWords == KeyWordUnion(Classifiers())
      ensures cwd == old(cwd)
    {
      classifiers := Classifiers();
      keyWords := KeyWordUnion(classifiers);
    }

    /** `line_is_relevant`: the first keyword found in the line ends the search. */
    method LineIsRelevant(line: string) returns (b: bool)
      ensures b <==> Relevant(keyWords, line)
    {
      for i := 0 to |keyWords|
        invariant forall k :: 0 <= k < i ==> !Contains(line, keyWords[k])
      {
        if Contains(line, keyWords[i]) {
          return true;
        }
      }
      return false;
    }

    /** The innermost loop: the records of one pattern's captures added to one collection. */
    static method AddCaptures(cat: Classifier, env: Env, caps: seq<Capture>, line: string, acc0: seq<Observable>)
      returns (acc: seq<Observable>)
      requires forall k :: 0 <= k < |caps| ==> (caps[k].Two? <==> cat.prep.HostPrep?)
      ensures acc == AddAll(acc0, CaptureRecords(cat, env, caps, line))
    {
      acc := acc0;
      ghost var recs := CaptureRecords(cat, env, caps, line);
      for k := 0 to |caps|
        invariant acc == AddAll(acc0, recs[..k])
      {
        var rec := MakeRecord(Prepare(cat.prep, env.cwd, env.lookup, caps[k]), line);
        assert recs[k] == rec;
        AddAllStep(acc0, recs, k);
        acc := Add(acc, rec);
      }
      assert recs[..|caps|] == recs;
    }

    /** The loop over one classifier's patterns on one line. */
    static method ScanClassifier(cat: Classifier, env: Env, line: string, acc0: seq<Observable>)
      returns (acc: seq<Observable>)
      requires Fits(cat)
      ensures acc == AddAll(acc0, Records(cat, env, line))
    {
      acc := acc0;
      for j := 0 to |cat.patterns|
        invariant acc == AddAll(acc0, PatternRecords(cat, env, j, line))
      {
        var caps := RunPattern(cat.patterns[j], env.ex, line);
        acc := AddCaptures(cat, env, caps, line, acc);
        AddAllConcat(acc0, PatternRecords(cat, env, j, line), CaptureRecords(cat, env, caps, line));
      }
    }

    /** The scan of lines 249-258 over the installed table, into fresh collections. */
    method ScanTrace(lines: seq<string>, lookup: string -> Option<string>, ex: Extractors)
      returns (accs: seq<seq<Observable>>)
      requires WellFormed(classifiers)
      ensures accs == ScanLines(classifiers, keyWords, Env(cwd, lookup, ex), EmptyCollections(classifiers), lines)
    {
      var env := Env(cwd, lookup, ex);
      var cats := classifiers;
      accs := EmptyCollections(cats);
      for l := 0 to |lines|
        invariant accs == ScanLines(cats, keyWords, env, EmptyCollections(cats), lines[..l])
      {
        assert lines[..l + 1][..l] == lines[..l];
        var line := lines[l];
        var relevant := LineIsRelevant(line);
        if relevant {
          var before := accs;
          for i := 0 to |cats|
            invariant |accs| == |cats|
            invariant forall m :: 0 <= m < i ==> accs[m] == AddAll(before[m], Records(cats[m], env, line))
            invariant forall m :: i <= m < |cats| ==> accs[m] == before[m]
          {
            var acc := ScanClassifier(cats[i], env, line, accs[i]);
            accs := accs[i := acc];
          }
        }
      }
      assert lines[..|lines|] == lines;
    }

    /** Line 261: every category's collection replaced by its sorted list. */
    static method SortCategories(accs: seq<seq<Observable>>) returns (finals: seq<seq<Observable>>)
      ensures |finals| == |accs|
      ensures forall m :: 0 <= m < |accs| ==> finals[m] == SortByName(accs[m])
    {
      finals := [];
      for i := 0 to |accs|
        invariant |finals| == i
        invariant forall m :: 0 <= m < i ==> finals[m] == SortByName(accs[m])
      {
        finals := finals + [SortByName(accs[i])];
      }
    }

    /** `run`: installs the table, resolves the working directory (failing when there is none,
        with `CWD` untouched), scans the lines, sorts each category and exports the non-empty
        ones into the bundle. */
    method Run(trace: string, lookup: string -> Option<string>, ex: Extractors) returns (r: Result<Bundle, RunError>)
      modifies this
      ensures classifiers == Classifiers() && keyWords == KeyWordUnion(Classifiers())
      ensures r.Err? <==> ResolveCwd(trace).None?
      ensures r.Err? ==> cwd == old(cwd)
      ensures r.Ok? ==> cwd == ResolveCwd(trace).value
      ensures r == RunSpec(trace, lookup, ex)
    {
      Init();
      var found := ResolveCwd(trace);
      if found.None? {
        return Err(NoBuildScript);
      }
      cwd := found.value;
      ClassifiersWellFormed();
      var accs := ScanTrace(SplitLines(trace), lookup, ex);
      var finals := SortCategories(accs);
      assert finals == Finals(cwd, lookup, ex, trace);
      var groupings, objects := ExportCategories(ClassifierNames(classifiers), finals);
      r := Ok(BundleOf(objects, groupings));
    }
  }
}
