/** The scan of `run` (lines 242-261): every relevant line is run through every pattern of every
    classifier, each prepared capture becomes a record, and the records that survive the drop rule
    are added to their category's collection, which is finally sorted by name. */
module Accumulate {
  import opened Wrappers
  import opened Text
  import opened Observables
  import opened Fields
  import opened Patterns
  import opened Catalog

  /** What a scan needs besides the table: the working directory, the reverse lookup behind
      `ip2domain`, and the extractors behind the patterns that are not scanned by hand. */
  datatype Env = Env(cwd: string, lookup: string -> Option<string>, ex: Extractors)

  /** The record built for one prepared capture of a line. */
  function MakeRecord(name: string, line: string): Observable {
    Observable(name, GetContainerId(line), line, Timestamp(line))
  }

  /** The drop rule: a record with an empty or whitelisted name is never added. */
  predicate Kept(r: Observable) {
    r.name != "" && !IsOnWhitelist(r.name)
  }

  /** The collection already holds a record equal to `r` under `__eq__`. */
  predicate Known(acc: seq<Observable>, r: Observable) {
    exists i | 0 <= i < |acc| :: Same(acc[i], r)
  }

  /** `set.add` under `__eq__`: a record equal to one already present leaves the collection as it
      is (the record first added stays); any other record is appended. */
  function Insert(acc: seq<Observable>, r: Observable): (res: seq<Observable>)
    ensures Distinct(acc) ==> Distinct(res)
    ensures |acc| <= |res| && res[..|acc|] == acc
    ensures forall y :: y in res ==> y in acc || y == r
  {
    if Known(acc, r) then acc
    else
      assert (acc + [r])[..|acc|] == acc;
      acc + [r]
  }

  /** After `Insert` the collection knows exactly what it knew before and the inserted record. */
  lemma InsertKnown(acc: seq<Observable>, r: Observable, y: Observable)
    ensures Known(Insert(acc, r), y) <==> Known(acc, y) || Same(r, y)
  {
    var res := Insert(acc, r);
    if Known(acc, y) {
      var i :| 0 <= i < |acc| && Same(acc[i], y);
      assert res[i] == acc[i];
    }
    if Same(r, y) && !Known(acc, r) {
      assert res[|acc|] == r;
    }
  }

  /** `set.add` as CPython runs it on these records: `__hash__` hashes `str(self)`, the default
      repr holding the object's address, so two live records (barring a full hash collision) never
      share a hash, `__eq__` is never consulted, and every record is kept. */
  function InsertAsWritten(acc: seq<Observable>, r: Observable): (res: seq<Observable>)
    ensures multiset(res) == multiset(acc) + multiset{r}
  {
    acc + [r]
  }

  /** The discrepancy: two records equal under `__eq__` (say, the same `unlink` line twice) both
      stay in the collection as written, while `Insert` keeps the first only. */
  lemma AsWrittenKeepsEqualRecords(a: Observable, b: Observable)
    requires Same(a, b)
    ensures !Distinct(InsertAsWritten(InsertAsWritten([], a), b))
    ensures Insert(Insert([], a), b) == [a]
  {
    var both := InsertAsWritten(InsertAsWritten([], a), b);
    assert both[0] == a && both[1] == b;
    var one := Insert([], a);
    assert !Known([], a);
    assert one == [a];
    assert Known(one, b) by {
      assert Same(one[0], b);
    }
  }

  /** One step of the innermost loop: insert the record unless the drop rule rejects it. */
  function Add(acc: seq<Observable>, r: Observable): seq<Observable> {
    if Kept(r) then Insert(acc, r) else acc
  }

  /** The records `rs` added one after the other. The collection only grows at its end, and what
      it gains are kept records of `rs`. */
  function AddAll(acc: seq<Observable>, rs: seq<Observable>): (res: seq<Observable>)
    ensures |acc| <= |res| && res[..|acc|] == acc
    ensures forall y :: y in res ==> y in acc || (y in rs && Kept(y))
  {
    if rs == [] then acc
    else
      var init := rs[..|rs| - 1];
      var mid := AddAll(acc, init);
      assert forall y :: y in init ==> y in rs;
      Add(mid, rs[|rs| - 1])
  }

  /** Adding the first `k + 1` records is adding record `k` after the first `k`. */
  lemma AddAllStep(acc: seq<Observable>, rs: seq<Observable>, k: nat)
    requires k < |rs|
    ensures AddAll(acc, rs[..k + 1]) == Add(AddAll(acc, rs[..k]), rs[k])
  {
    assert rs[..k + 1][..k] == rs[..k];
  }

  /** Adding two runs of records is adding their concatenation. */
  lemma {:induction false} AddAllConcat(acc: seq<Observable>, xs: seq<Observable>, ys: seq<Observable>)
    ensures AddAll(AddAll(acc, xs), ys) == AddAll(acc, xs + ys)
  {
    if ys == [] {
      assert xs + ys == xs;
    } else {
      assert (xs + ys)[..|xs + ys| - 1] == xs + ys[..|ys| - 1];
      AddAllConcat(acc, xs, ys[..|ys| - 1]);
    }
  }

  /** A collection without duplicates under `__eq__` stays without them. */
  lemma {:induction false} AddAllDistinct(acc: seq<Observable>, rs: seq<Observable>)
    requires Distinct(acc)
    ensures Distinct(AddAll(acc, rs))
  {
    if rs != [] {
      AddAllDistinct(acc, rs[..|rs| - 1]);
    }
  }

  /** What was known stays known, and every kept record of `rs` ends up represented. */
  lemma {:induction false} AddAllComplete(acc: seq<Observable>, rs: seq<Observable>)
    ensures forall y :: Known(acc, y) ==> Known(AddAll(acc, rs), y)
    ensures forall k :: 0 <= k < |rs| && Kept(rs[k]) ==> Known(AddAll(acc, rs), rs[k])
  {
    var res := AddAll(acc, rs);
    forall y | Known(acc, y) ensures Known(res, y) {
      var i :| 0 <= i < |acc| && Same(acc[i], y);
      assert res[i] == acc[i];
    }
    if rs != [] {
      var init := rs[..|rs| - 1];
      AddAllComplete(acc, init);
      var mid := AddAll(acc, init);
      assert res == Add(mid, rs[|rs| - 1]);
      forall k | 0 <= k < |rs| && Kept(rs[k]) ensures Known(res, rs[k]) {
        if k < |rs| - 1 {
          assert rs[k] == init[k];
          var i :| 0 <= i < |mid| && Same(mid[i], rs[k]);
          assert res[i] == mid[i];
        } else {
          InsertKnown(mid, rs[k], rs[k]);
        }
      }
    }
  }

  /** A record equal neither to one the collection knew nor to a kept record of `rs` stays
      unknown. */
  lemma AddAllUnknown(acc: seq<Observable>, rs: seq<Observable>, y: Observable)
    requires !Known(acc, y)
    requires forall k :: 0 <= k < |rs| && Kept(rs[k]) ==> !Same(rs[k], y)
    ensures !Known(AddAll(acc, rs), y)
  {
    var res := AddAll(acc, rs);
    forall m | 0 <= m < |res| ensures !Same(res[m], y) {
      if res[m] in acc {
        var i :| 0 <= i < |acc| && acc[i] == res[m];
      } else {
        var k :| 0 <= k < |rs| && rs[k] == res[m];
      }
    }
  }

  /** First one wins: a kept record that is new to the collection and has no equal kept record
      before it in `rs` is itself the one the collection holds. */
  lemma {:induction false} AddAllKeepsFirst(acc: seq<Observable>, rs: seq<Observable>, j: nat)
    requires j < |rs| && Kept(rs[j]) && !Known(acc, rs[j])
    requires forall k :: 0 <= k < j && Kept(rs[k]) ==> !Same(rs[k], rs[j])
    ensures rs[j] in AddAll(acc, rs)
  {
    var init := rs[..|rs| - 1];
    var mid := AddAll(acc, init);
    var res := AddAll(acc, rs);
    assert res == Add(mid, rs[|rs| - 1]);
    if j < |rs| - 1 {
      assert init[j] == rs[j];
      AddAllKeepsFirst(acc, init, j);
      var i :| 0 <= i < |mid| && mid[i] == rs[j];
      assert res[..|mid|] == mid;
      assert res[..|mid|][i] == rs[j];
    } else {
      forall k | 0 <= k < |init| && Kept(init[k]) ensures !Same(init[k], rs[j]) {
        assert init[k] == rs[k];
      }
      AddAllUnknown(acc, init, rs[j]);
      assert res == Insert(mid, rs[j]) == mid + [rs[j]];
    }
  }

  // ---------------------------------------------------------------------------------------------
  // Records of one line

  /** One record per capture of one pattern, each named by the classifier's `prepare`. */
  function CaptureRecords(cat: Classifier, env: Env, caps: seq<Capture>, line: string): seq<Observable>
    requires forall k :: 0 <= k < |caps| ==> (caps[k].Two? <==> cat.prep.HostPrep?)
  {
    seq(|caps|, k requires 0 <= k < |caps| => MakeRecord(Prepare(cat.prep, env.cwd, env.lookup, caps[k]), line))
  }

  /** The records of one line under the first `n` patterns of a classifier, in the order the loops
      visit them. Each carries the line, its container id and its timestamp; file names are
      absolute under an absolute working directory; process names hold no '"' and no ','. */
  function PatternRecords(cat: Classifier, env: Env, n: nat, line: string): (rs: seq<Observable>)
    requires Fits(cat) && n <= |cat.patterns|
    ensures forall y :: y in rs ==>
      (y.command == line && y.containerId == GetContainerId(line) && y.timestamp == Timestamp(line))
    ensures cat.prep.PathPrep? && (env.cwd == "" || StartsWith(env.cwd, "/")) ==>
      forall y :: y in rs ==> StartsWith(y.name, "/")
    ensures cat.prep.ArgsPrep? ==> forall y :: y in rs ==> '"' !in y.name && ',' !in y.name
  {
    if n == 0 then []
    else
      var caps := RunPattern(cat.patterns[n - 1], env.ex, line);
      PatternRecords(cat, env, n - 1, line) + CaptureRecords(cat, env, caps, line)
  }

  /** The records of one line for one classifier. */
  function Records(cat: Classifier, env: Env, line: string): seq<Observable>
    requires Fits(cat)
  {
    PatternRecords(cat, env, |cat.patterns|, line)
  }

  /** The records of the first patterns start the records of all patterns. */
  lemma {:induction false} PatternRecordsGrow(cat: Classifier, env: Env, m: nat, n: nat, line: string)
    requires Fits(cat) && m <= n <= |cat.patterns|
    ensures var pm, pn := PatternRecords(cat, env, m, line), PatternRecords(cat, env, n, line);
      |pm| <= |pn| && pn[..|pm|] == pm
    decreases n
  {
    var pm := PatternRecords(cat, env, m, line);
    if m < n {
      PatternRecordsGrow(cat, env, m, n - 1, line);
      var before := PatternRecords(cat, env, n - 1, line);
      var caps := RunPattern(cat.patterns[n - 1], env.ex, line);
      assert PatternRecords(cat, env, n, line) == before + CaptureRecords(cat, env, caps, line);
      PrefixOfAppend(before, CaptureRecords(cat, env, caps, line), |pm|);
    } else {
      assert pm[..|pm|] == pm;
    }
  }

  /** A prefix of the first part is a prefix of the concatenation. */
  lemma PrefixOfAppend<T>(a: seq<T>, b: seq<T>, k: nat)
    requires k <= |a|
    ensures (a + b)[..k] == a[..k]
  {
  }

  // ---------------------------------------------------------------------------------------------
  // The scan

  /** The collections before the first line: one empty collection per classifier. */
  function EmptyCollections(cats: seq<Classifier>): seq<seq<Observable>> {
    seq(|cats|, i => [])
  }

  /** One line of the outer loop: an irrelevant line is skipped, a relevant one adds its records
      to every classifier's collection. */
  function ScanLine(cats: seq<Classifier>, kws: seq<string>, env: Env, accs: seq<seq<Observable>>, line: string)
    : (res: seq<seq<Observable>>)
    requires WellFormed(cats) && |accs| == |cats|
    ensures |res| == |cats|
  {
    if !Relevant(kws, line) then accs
    else seq(|cats|, i requires 0 <= i < |cats| => AddAll(accs[i], Records(cats[i], env, line)))
  }

  /** The outer loop over the lines of the trace. */
  function ScanLines(cats: seq<Classifier>, kws: seq<string>, env: Env, accs: seq<seq<Observable>>, lines: seq<string>)
    : (res: seq<seq<Observable>>)
    requires WellFormed(cats) && |accs| == |cats|
    ensures |res| == |cats|
  {
    if lines == [] then accs
    else ScanLine(cats, kws, env, ScanLines(cats, kws, env, accs, lines[..|lines| - 1]), lines[|lines| - 1])
  }

  /** The records one classifier takes from the relevant lines among `lines`, in scan order. Each
      names the relevant line it comes from, with that line's container id and timestamp. */
  function Produced(cat: Classifier, kws: seq<string>, env: Env, lines: seq<string>): (rs: seq<Observable>)
    requires Fits(cat)
    ensures forall y :: y in rs ==>
      (y.command in lines && Relevant(kws, y.command) &&
       y.containerId == GetContainerId(y.command) && y.timestamp == Timestamp(y.command))
  {
    if lines == [] then []
    else
      var init, line := lines[..|lines| - 1], lines[|lines| - 1];
      var before := Produced(cat, kws, env, init);
      assert forall l :: l in init ==> l in lines;
      before + (if Relevant(kws, line) then Records(cat, env, line) else [])
  }

  /** The categories do not interact: each classifier's collection is its records from the
      relevant lines, added in scan order. */
  lemma {:induction false} ScanLinesByCategory(cats: seq<Classifier>, kws: seq<string>, env: Env,
                                               accs: seq<seq<Observable>>, lines: seq<string>, i: nat)
    requires WellFormed(cats) && |accs| == |cats| && i < |cats|
    ensures ScanLines(cats, kws, env, accs, lines)[i] == AddAll(accs[i], Produced(cats[i], kws, env, lines))
  {
    if lines != [] {
      var init, line := lines[..|lines| - 1], lines[|lines| - 1];
      ScanLinesByCategory(cats, kws, env, accs, init, i);
      if Relevant(kws, line) {
        AddAllConcat(accs[i], Produced(cats[i], kws, env, init), Records(cats[i], env, line));
      } else {
        var p := Produced(cats[i], kws, env, init);
        assert p + [] == p;
      }
    }
  }

  /** Scanning two runs of lines is scanning their concatenation. */
  lemma {:induction false} ScanLinesConcat(cats: seq<Classifier>, kws: seq<string>, env: Env,
                                           accs: seq<seq<Observable>>, xs: seq<string>, ys: seq<string>)
    requires WellFormed(cats) && |accs| == |cats|
    ensures ScanLines(cats, kws, env, ScanLines(cats, kws, env, accs, xs), ys) == ScanLines(cats, kws, env, accs, xs + ys)
  {
    if ys == [] {
      assert xs + ys == xs;
    } else {
      assert (xs + ys)[..|xs + ys| - 1] == xs + ys[..|ys| - 1];
      ScanLinesConcat(cats, kws, env, accs, xs, ys[..|ys| - 1]);
    }
  }

  /** A line containing none of the keywords contributes nothing to any category: the scan with it
      equals the scan without it. */
  lemma IrrelevantLineIgnored(cats: seq<Classifier>, kws: seq<string>, env: Env, accs: seq<seq<Observable>>,
                              xs: seq<string>, line: string, ys: seq<string>)
    requires WellFormed(cats) && |accs| == |cats| && !Relevant(kws, line)
    ensures ScanLines(cats, kws, env, accs, xs + [line] + ys) == ScanLines(cats, kws, env, accs, xs + ys)
  {
    var before := ScanLines(cats, kws, env, accs, xs);
    ScanLinesConcat(cats, kws, env, accs, xs + [line], ys);
    ScanLinesConcat(cats, kws, env, accs, xs, ys);
    assert (xs + [line])[..|xs + [line]| - 1] == xs;
    assert ScanLines(cats, kws, env, accs, xs + [line]) == before;
  }

  /** Every record a relevant line of the trace yields is produced. */
  lemma {:induction false} ProducedIncludes(cat: Classifier, kws: seq<string>, env: Env, lines: seq<string>,
                                            line: string, y: Observable)
    requires Fits(cat) && line in lines && Relevant(kws, line) && y in Records(cat, env, line)
    ensures y in Produced(cat, kws, env, lines)
  {
    var init := lines[..|lines| - 1];
    if line != lines[|lines| - 1] {
      assert lines == init + [lines[|lines| - 1]];
      ProducedIncludes(cat, kws, env, init, line, y);
    }
  }

  /** Each category's final list (line 261): its collection sorted by name. */
  function Categories(cats: seq<Classifier>, kws: seq<string>, env: Env, lines: seq<string>)
    : (res: seq<seq<Observable>>)
    requires WellFormed(cats)
    ensures |res| == |cats|
  {
    var accs := ScanLines(cats, kws, env, EmptyCollections(cats), lines);
    seq(|cats|, i requires 0 <= i < |cats| => SortByName(accs[i]))
  }

  /** What a category's final list holds, in terms of the records its classifier produced from
      the relevant lines: it is sorted by name and free of duplicates under `__eq__`; it holds only
      produced records that pass the drop rule; every produced record that passes it is
      represented; and the one that represents it is the first produced. */
  lemma CategoryContents(cats: seq<Classifier>, kws: seq<string>, env: Env, lines: seq<string>, i: nat)
    requires WellFormed(cats) && i < |cats|
    ensures var c, p := Categories(cats, kws, env, lines)[i], Produced(cats[i], kws, env, lines);
      && SortedByName(c) && Distinct(c)
      && (forall y :: y in c ==> y in p && Kept(y))
      && (forall k :: 0 <= k < |p| && Kept(p[k]) ==> Known(c, p[k]))
      && (forall k :: 0 <= k < |p| && Kept(p[k]) && (forall m :: 0 <= m < k && Kept(p[m]) ==> !Same(p[m], p[k]))
            ==> p[k] in c)
  {
    var p := Produced(cats[i], kws, env, lines);
    var a := AddAll([], p);
    ScanLinesByCategory(cats, kws, env, EmptyCollections(cats), lines, i);
    var c := Categories(cats, kws, env, lines)[i];
    assert c == SortByName(a);
    AddAllDistinct([], p);
    SortByNameSortedDistinct(a);
    AddAllComplete([], p);
    forall y | y in c ensures y in a {
      assert y in multiset(a);
    }
    forall k | 0 <= k < |p| && Kept(p[k]) ensures Known(c, p[k]) {
      var m :| 0 <= m < |a| && Same(a[m], p[k]);
      assert a[m] in multiset(c);
    }
    forall k | 0 <= k < |p| && Kept(p[k]) && (forall m :: 0 <= m < k && Kept(p[m]) ==> !Same(p[m], p[k]))
      ensures p[k] in c
    {
      AddAllKeepsFirst([], p, k);
      assert p[k] in multiset(a);
    }
  }

  /** Completeness at line level: a record that a relevant line yields for a classifier and that
      passes the drop rule is represented in that classifier's final list. */
  lemma RecordReachesCategory(cats: seq<Classifier>, kws: seq<string>, env: Env, lines: seq<string>, i: nat,
                              line: string, y: Observable)
    requires WellFormed(cats) && i < |cats|
    requires line in lines && Relevant(kws, line) && y in Records(cats[i], env, line) && Kept(y)
    ensures Known(Categories(cats, kws, env, lines)[i], y)
  {
    var p := Produced(cats[i], kws, env, lines);
    ProducedIncludes(cats[i], kws, env, lines, line, y);
    CategoryContents(cats, kws, env, lines, i);
    var k :| 0 <= k < |p| && p[k] == y;
  }
}
