# Cuckoo STIX 2 reporter: trace-to-observables core in Dafny

This project models the core of Cuckoo's STIX 2 reporting module, `cuckoo/reporting/stix2-reporter.py`, and proves
properties about that model. The reporter reads the system-call trace of a sandboxed build and works in four steps:

1. It resolves the working directory from the first `execve(... "-c", "<dir>/<script>"` call.
2. It cuts the trace into lines and drops the lines that contain none of the classifiers' keywords.
3. It runs every relevant line through the six classifiers. These are `files_removed`, `files_read`,
   `files_written`, `hosts_connected`, `processes_created` and `domains`. Each classifier has its own
   patterns and its own `prepare` normalizer.
4. It builds a record from every prepared capture. The record holds the name, the line's container id, the line
   itself and the line's first 31 characters. Records with an empty or whitelisted name are dropped. The rest go into
   one collection per category, without duplicates under `ObservableObject.__eq__`. Each collection is sorted by name.

The non-empty categories are then exported as STIX objects, one grouping per category. Processes are deduplicated by
command line. Hosts become IPv4 or IPv6 objects depending on the shape of the raw line. An analysis object references
every object, and the bundle holds the objects, the analysis object and the groupings.

Layout (one module per file):

- `wrappers.dfy` (`Wrappers`): `Option` and `Result`.
- `text.dfy` (`Text`): substring tests, character search restricted to one line, `str.replace` of one character.
- `observables.dfy` (`Observables`): the record, its identity (`__eq__`), its order (`__lt__`, Python's `str` order)
  and `sorted` as a stable insertion sort.
- `lines.dfy` (`Lines`): `str.splitlines`.
- `fields.dfy` (`Fields`): the container id, the timestamp, the whitelist, `get_executable_path`, and the IPv4 shape
  test.
- `patterns.dfy` (`Patterns`): `re.findall` for the literal-delimited patterns, scanned by hand. The other patterns
  come from abstract extractors.
- `cwd.dfy` (`WorkingDir`): the working-directory regex of `run`, scanned by hand. The scan stops at the first
  `"-c", "` after the call on its line. The regex engine backtracks to later flags too, but when the group fails
  after the first flag it fails after every later one (`WorkingDir.MatchDominated`).
- `catalog.dfy` (`Catalog`): the classifier table, the four `prepare` normalizers and the keyword union.
- `accumulate.dfy` (`Accumulate`): the scan, the drop rule, the per-category collections and their sorting. These
  are functions that specify the loops.
- `export.dfy` (`Export`): the exporters, the process dedup, the groupings and the bundle.
- `reporter.dfy` (`Reporter`): the class `Stix2`, with `CWD`, the table and the keyword union as fields.
  Its methods `Init`, `LineIsRelevant`, the nested scan loops and `Run` are proved against the functions above.
- `scenarios.dfy` (`Scenarios`): worked traces over the whole model.

Four behaviours of the code that a reader of its names might not expect, and where the model pins them down:

- **Container id.** The code takes the maximal run of `[0-9a-z]` just before the first `|` anywhere in the line,
  not only a token at the start of the line (`Fields.ContainerIdIsLeftmostMatch`). A leading `token|` is the
  special case where that run is the token (`Fields.ContainerIdOfToken`).
- **IPv4 or IPv6.** The code tests whether the raw line, not the host name, starts with a dotted quad
  (`Export.HostKindOfLine`). So a line whose first character is not a digit always yields IPv6.
- **A trace with only the build-script line.** That line is an `execve` with a bracketed argument list, so the
  `processes_created` pattern captures it, and the bundle has a `processes_created` grouping
  (`Scenarios.ExecveLineGivesProcessGrouping`).
- **Duplicates.** `__eq__` identifies two records by (name, container id), but with this `__hash__` CPython's set
  keeps every record (see Findings). The model keeps one record per identity, as `__eq__` intends.

## Model

| member | source | states |
|---|---|---|
| Observables.StrLessTotal | cuckoo/reporting/stix2-reporter.py:17-20 | Python's `str` order used by `__lt__` is total and asymmetric: of two different names exactly one is smaller |
| Observables.StrLessTransitive | cuckoo/reporting/stix2-reporter.py:17-20 | the name order is transitive |
| Observables.StrLessIrreflexive | cuckoo/reporting/stix2-reporter.py:17-20 | no name is smaller than itself |
| Observables.SortByName | cuckoo/reporting/stix2-reporter.py:261 | `sorted` returns a permutation (the same multiset) of the collection |
| Observables.SortByNameSortedDistinct | cuckoo/reporting/stix2-reporter.py:261 | the sorted list is ascending by name, and a collection without `__eq__`-duplicates stays without them |
| Lines.SplitLines | cuckoo/reporting/stix2-reporter.py:248 | no line that `splitlines` returns contains a line-boundary character |
| Lines.SplitLinesUnlines | cuckoo/reporting/stix2-reporter.py:248 | for a text whose only boundary is '\n', the lines joined with '\n' give the text back, up to a final '\n' |
| Fields.GetContainerId | cuckoo/reporting/stix2-reporter.py:99-103 | the id holds only `[0-9a-z]`, is "" when the line has no '\|', and otherwise is the maximal such run ending right before the first '\|' |
| Fields.ContainerIdIsLeftmostMatch | cuckoo/reporting/stix2-reporter.py:99-103 | the regex matches iff the line has a '\|', and the id is the group of the leftmost match |
| Fields.ContainerIdOfToken | cuckoo/reporting/stix2-reporter.py:99-103 | round trip: a line `token\|rest` whose token is made of `[0-9a-z]` has that token as its container id |
| Fields.Timestamp | cuckoo/reporting/stix2-reporter.py:256 | the timestamp is the line's prefix of length min(31, line length) |
| Fields.WhitelistedIsUnderNpm | cuckoo/reporting/stix2-reporter.py:106-114 | every whitelisted name lies under `/root/.npm/` |
| Fields.WhitelistedExtension | cuckoo/reporting/stix2-reporter.py:106-114 | the test is by prefix: extending a whitelisted name keeps it whitelisted |
| Fields.GetExecutablePath | cuckoo/reporting/stix2-reporter.py:204-210 | the executable path never contains '"' |
| Fields.ExecutablePathIsLeftmostMatch | cuckoo/reporting/stix2-reporter.py:204-210 | the path is "" when `execve\("([^"]*)"` does not match, and otherwise the group of the leftmost match |
| Fields.ExecutablePathOfCall | cuckoo/reporting/stix2-reporter.py:204-210 | round trip: the path of a line `execve("p"...` is `p` |
| Fields.IPv4Complete | cuckoo/reporting/stix2-reporter.py:141-144 | four dotted groups of one to three digits at the start of a line make the IPv4 test succeed, whatever follows |
| Fields.IPv4Sound | cuckoo/reporting/stix2-reporter.py:141-144 | when the IPv4 test succeeds, the line starts with four such groups joined by dots |
| Patterns.FindAll | cuckoo/reporting/stix2-reporter.py:254 | captures of a hand-scanned pattern contain neither its closing delimiter nor a line break, and a non-empty result means the pattern's literal prefix occurs in the line |
| Patterns.MatchAtIsFirst | cuckoo/reporting/stix2-reporter.py:254 | no match is found at a position iff no match of the pattern starts there; otherwise the one found is a match and comes first (shortest skip, then shortest group) among those starting there |
| Patterns.FindAllFromIsFirstMatch | cuckoo/reporting/stix2-reporter.py:254 | `findall` from a position is empty iff no match starts there or later; otherwise its first capture is the group of the first match from there, and the rest is `findall` from just past that match: the successive leftmost non-overlapping matches |
| Patterns.FindAllFirstCapture | cuckoo/reporting/stix2-reporter.py:41-45 | round trip: on `lead prefix junk open g close rest`, for any `lead` in which the prefix does not start, the first capture is `g` |
| Patterns.RunPattern | cuckoo/reporting/stix2-reporter.py:67 | a pattern yields pair captures exactly when it is the two-group hosts pattern |
| WorkingDir.ResolveCwdIsFirstMatch | cuckoo/reporting/stix2-reporter.py:239-240 | resolution fails iff the regex has no match; otherwise the directory is the group of the first match in `findall` order |
| WorkingDir.ResolveCwdOfScript | cuckoo/reporting/stix2-reporter.py:239-240 | on `execve(` … `"-c", "dir/name"` the directory is `dir` |
| Catalog.NormalizePath | cuckoo/reporting/stix2-reporter.py:46 | the path ends with the capture, and starts with '/' whenever the working directory is empty or absolute |
| Catalog.NormalizePathIdempotent | cuckoo/reporting/stix2-reporter.py:46 | under an empty or absolute working directory, normalizing twice equals normalizing once |
| Catalog.HostPortRoundTrip | cuckoo/reporting/stix2-reporter.py:68 | `addr:port` splits back at its last ':' into address and port, for any port without ':' |
| Catalog.FlattenArgs | cuckoo/reporting/stix2-reporter.py:74 | the flattened command line contains no '"' and no ',' |
| Catalog.FlattenArgsKeepsTheRest | cuckoo/reporting/stix2-reporter.py:74 | exactly the quotes and commas are removed; all other characters stay, in order |
| Catalog.FlattenArgsIdempotent | cuckoo/reporting/stix2-reporter.py:74 | flattening twice equals flattening once |
| Catalog.ReverseLookup | cuckoo/reporting/stix2-reporter.py:86-91 | a failing lookup leaves the address as the domain name |
| Catalog.ClassifiersWellFormed | cuckoo/reporting/stix2-reporter.py:36-82 | there are six classifiers; only the hosts pattern takes pairs; each hand-scanned pattern's prefix contains one of its classifier's keywords |
| Catalog.KeyWordUnion | cuckoo/reporting/stix2-reporter.py:84 | a word is in the union iff it is a keyword of some classifier |
| Catalog.DelimitedMatchIsRelevant | cuckoo/reporting/stix2-reporter.py:93-96 | the line filter never drops a line on which a hand-scanned pattern matches |
| Accumulate.Insert | cuckoo/reporting/stix2-reporter.py:258 | adding keeps the collection free of `__eq__`-duplicates, keeps what it held, and adds nothing but the record |
| Accumulate.InsertKnown | cuckoo/reporting/stix2-reporter.py:22-27 | after adding, the collection holds a record equal to `y` iff it did before or `y` equals the new record |
| Accumulate.AddAll | cuckoo/reporting/stix2-reporter.py:254-258 | the collection only grows at its end, and what it gains are records of the run that pass the drop rule |
| Accumulate.AddAllConcat | cuckoo/reporting/stix2-reporter.py:248-258 | adding two runs one after the other is adding their concatenation |
| Accumulate.AddAllDistinct | cuckoo/reporting/stix2-reporter.py:258 | a collection without duplicates stays without them |
| Accumulate.AddAllComplete | cuckoo/reporting/stix2-reporter.py:257-258 | what was held stays held, and every record of the run that passes the drop rule ends up represented |
| Accumulate.AddAllUnknown | cuckoo/reporting/stix2-reporter.py:257-258 | a record equal to nothing held and to no kept record of the run stays unrepresented |
| Accumulate.AddAllKeepsFirst | cuckoo/reporting/stix2-reporter.py:258 | the record that represents an identity is the first kept one with that identity |
| Accumulate.InsertAsWritten | cuckoo/reporting/stix2-reporter.py:29-30 | as CPython runs it, adding to the set keeps every record (multiset union) |
| Accumulate.AsWrittenKeepsEqualRecords | cuckoo/reporting/stix2-reporter.py:29-30 | two records equal under `__eq__` both stay in the set as written, while the keyed insert keeps the first only |
| Accumulate.PatternRecords | cuckoo/reporting/stix2-reporter.py:253-256 | every record of a line carries that line, its container id and its timestamp; file names are absolute under an absolute working directory; process names hold no '"' or ',' |
| Accumulate.PatternRecordsGrow | cuckoo/reporting/stix2-reporter.py:253 | the records of the first patterns come first among the records of all patterns |
| Accumulate.Produced | cuckoo/reporting/stix2-reporter.py:248-256 | every produced record comes from a relevant line of the trace and carries that line's container id and timestamp |
| Accumulate.ProducedIncludes | cuckoo/reporting/stix2-reporter.py:248-256 | every record that a relevant line of the trace yields is produced |
| Accumulate.ScanLinesByCategory | cuckoo/reporting/stix2-reporter.py:248-258 | the categories do not interact: each collection is its classifier's produced records, added in scan order |
| Accumulate.ScanLinesConcat | cuckoo/reporting/stix2-reporter.py:248 | scanning two runs of lines one after the other is scanning their concatenation |
| Accumulate.IrrelevantLineIgnored | cuckoo/reporting/stix2-reporter.py:249-250 | a line with none of the keywords contributes no record to any category |
| Accumulate.CategoryContents | cuckoo/reporting/stix2-reporter.py:242-261 | each final list is sorted by name and free of duplicates; it holds only kept produced records; every kept produced record is represented, by the first one produced |
| Accumulate.RecordReachesCategory | cuckoo/reporting/stix2-reporter.py:248-258 | a kept record of a relevant line is represented in its category's final list |
| Export.HostObject | cuckoo/reporting/stix2-reporter.py:143-165 | a host becomes an IPv4 or an IPv6 object whose value is the record's name and whose provenance is the record's |
| Export.HostKindIgnoresName | cuckoo/reporting/stix2-reporter.py:144 | the IPv4/IPv6 choice depends on the raw line only, not on the name |
| Export.HostKindOfLine | cuckoo/reporting/stix2-reporter.py:144 | a line not starting with a digit gives IPv6; a line starting with a dotted quad gives IPv4 |
| Export.HostsToObjects | cuckoo/reporting/stix2-reporter.py:143-166 | the loop makes one address object per record, in order |
| Export.ProcessObject | cuckoo/reporting/stix2-reporter.py:186-196 | the command line is the record's name, the provenance is the record's, and the executable path is read off the raw line without '"' |
| Export.IsKnownProcess | cuckoo/reporting/stix2-reporter.py:174-179 | true iff some exported process has the record's name as its command line |
| Export.DedupByCommandLine | cuckoo/reporting/stix2-reporter.py:182-196 | the dedup exports only process objects, none with '"' in its executable path |
| Export.ProcessesToObjects | cuckoo/reporting/stix2-reporter.py:182-196 | the loop computes the dedup by command line |
| Export.DedupKnowsInputNames | cuckoo/reporting/stix2-reporter.py:182-196 | a command line is exported iff it is the name of some input record |
| Export.DedupIsFirstOccurrences | cuckoo/reporting/stix2-reporter.py:182-196 | the export is, in input order, the process objects of the records that are first with their name |
| Export.DedupCommandLinesDistinct | cuckoo/reporting/stix2-reporter.py:182-196 | the exported command lines are pairwise distinct |
| Export.ExportedKeys | cuckoo/reporting/stix2-reporter.py:263-281 | a name is listed iff its category is non-empty and one of the export branches takes it |
| Export.GroupingsOfNonEmptyCategories | cuckoo/reporting/stix2-reporter.py:263-281 | the groupings are named after the non-empty categories, in table order, and none is empty |
| Export.ExportedKeyIffNonEmpty | cuckoo/reporting/stix2-reporter.py:263-281 | with distinct names that are all dispatched, a category gets a grouping iff it is non-empty |
| Export.ClassifierNamesDispatched | cuckoo/reporting/stix2-reporter.py:266-278 | every category of the table is taken by one of the export branches |
| Export.BundleOf | cuckoo/reporting/stix2-reporter.py:282-291 | the bundle holds the objects, then the `cuckoo-sandbox` analysis object referencing all of them, then the groupings |
| Export.GroupedObjectsAnalysed | cuckoo/reporting/stix2-reporter.py:263-286 | every object a grouping references is among the analysis object's references |
| Export.ExportCategories | cuckoo/reporting/stix2-reporter.py:263-281 | the loop builds the groupings of the non-empty categories and the list of all their objects |
| Reporter.RunGroupings | cuckoo/reporting/stix2-reporter.py:234-291 | a run fails iff the working directory does not resolve; otherwise its bundle has a grouping for a category iff that category is non-empty, in table order, none empty |
| Reporter.ClassifierNamesDistinct | cuckoo/reporting/stix2-reporter.py:36-82 | the six category names differ |
| Reporter.Stix2.constructor | cuckoo/reporting/stix2-reporter.py:33-34 | a new reporter has the empty `CWD` and no table yet |
| Reporter.Stix2.Init | cuckoo/reporting/stix2-reporter.py:36-84 | `init` installs the six-classifier table and its keyword union, leaving `CWD` alone |
| Reporter.Stix2.LineIsRelevant | cuckoo/reporting/stix2-reporter.py:93-96 | the early-return loop answers true iff the line contains one of the keywords |
| Reporter.Stix2.AddCaptures | cuckoo/reporting/stix2-reporter.py:254-258 | the innermost loop adds the records of one pattern's captures, dropping empty or whitelisted names |
| Reporter.Stix2.ScanClassifier | cuckoo/reporting/stix2-reporter.py:253-258 | the loop over a classifier's patterns adds that classifier's records of the line |
| Reporter.Stix2.ScanTrace | cuckoo/reporting/stix2-reporter.py:248-258 | the nested loops compute the scan of the lines into fresh collections |
| Reporter.Stix2.SortCategories | cuckoo/reporting/stix2-reporter.py:260-261 | every collection is replaced by its sorted list |
| Reporter.Stix2.Run | cuckoo/reporting/stix2-reporter.py:234-291 | `run` fails exactly when the working directory does not resolve, and then leaves `CWD` as it was; otherwise it sets `CWD` to the resolved directory and returns the specified bundle |
| Scenarios.RelativeUnlinkUnderCwd | cuckoo/reporting/stix2-reporter.py:41-46 | a relative path removed by `unlink` on a line `token\|unlink("path"...` is reported in `files_removed` under the working directory, with `token` as its container id and the line's timestamp, unless whitelisted |
| Scenarios.UnlinkLineRecord | cuckoo/reporting/stix2-reporter.py:41-46 | a line `token\|unlink("path"...` passes the line filter, and its first `files_removed` record names the path under the working directory |
| Scenarios.ExecveLineIsAProcess | cuckoo/reporting/stix2-reporter.py:73-74 | an `execve` line with a bracketed argument list, behind any lead without '(' (a container token, say), makes `processes_created` non-empty |
| Scenarios.ExecveLineGivesProcessGrouping | cuckoo/reporting/stix2-reporter.py:234-281 | once the working directory resolves, a kept `execve` line with a bracketed argument list, behind any lead without '(' (a container token, say), gives the bundle a `processes_created` grouping; the build-script line is one |
| Scenarios.NoInet6NoHostRecords | cuckoo/reporting/stix2-reporter.py:64-68 | under an extractor honouring the `{AF_INET6 ` spelling, the hosts classifier produces no record from lines without it |
| Scenarios.NoInet6EmptyHostList | cuckoo/reporting/stix2-reporter.py:248-261 | the final `hosts_connected` list of such lines is empty |
| Scenarios.NoInet6NoHostGrouping | cuckoo/reporting/stix2-reporter.py:234-281 | a trace whose `connect` calls are all `AF_INET` (no line holds `{AF_INET6 `) exports no `hosts_connected` grouping |
| Scenarios.OneCommandLineTwoContainers | cuckoo/reporting/stix2-reporter.py:174-196 | two records of one command line in two containers stay two records of the category but export as one process, the first |

## Left out

- Five regexes are not scanned by hand: the `openat` read and write patterns (lines 51, 58), the `link`/`rename`
  pattern (line 59) and the two `connect` patterns (lines 67, 79). Each would need its own lazy-matching scanner
  and proofs like those of the delimited patterns, so they are kept abstract to bound the model: an `Extractors`
  value maps a pattern id and a line to the captures. The spelling `{AF_INET(?:6) ` of the hosts pattern is kept
  as a property of that value instead (`Catalog.HostsNeedInet6`, used by `Scenarios.NoInet6NoHostGrouping`).
- `ip2domain` (lines 86-91) performs a blocking reverse DNS lookup. It is the parameter `lookup`. `None` stands for
  any failure.
- The stix2 library is a foreign library. The objects are plain tagged values, and so are `Grouping`,
  `MalwareAnalysis` and `Bundle`. The model keeps no type strings, no `"suspicious-activity"` context, no
  `allow_custom` and no serialization.
- The `uuid1()` identifiers are nondeterministic.
- File I/O is left out: reading `logs/all.stap` and writing `stix-file.json`. The trace is the parameter `trace`
  of `Run`.
- The `Report` base class and the unused `results` argument: the base class is not part of this model.
- The `stix` dictionary (line 246) is filled with empty sets and never read.
- The `isinstance(other, list)` branch of `__eq__` is left out, because records are never compared with lists.
- `Accumulate.Insert`: dedups under `__eq__`, keeping the first record, as `__eq__` intends. CPython with this
  `__hash__` keeps every record (see Findings).
- `Observables.SortByName`: the order among records with the same name is insertion order. CPython sorts
  `list(set)`, whose order follows the hashes, so the source leaves that order unspecified.
- `Reporter.Stix2.LineIsRelevant`: returns `false` where the source falls off the loop and returns `None`.

## Findings

| source | as written | input that shows it | evidently intended | confidence | as-written member | corrected member |
|---|---|---|---|---|---|---|
| cuckoo/reporting/stix2-reporter.py:29-30 | `__hash__` hashes `str(self)`, the default repr holding the object's address. So `set.add` at line 258 never finds two live records equal, and keeps duplicates | a trace with the same `unlink("/tmp/x")` line twice: `files_removed` holds two records equal under `__eq__` | one record per (name, container id), the first inserted, as `__eq__` defines | not executed | Accumulate.AsWrittenKeepsEqualRecords | Accumulate.AddAllKeepsFirst |
