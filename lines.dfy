/** `str.splitlines()`, which the reporter uses to cut the trace into lines. */
module Lines {

  /** The characters that `str.splitlines()` treats as line boundaries ("\r\n" counts once). */
  predicate IsLineBreak(c: char) {
    c == '\n' || c == '\r' || c == '\U{0B}' || c == '\U{0C}' || c == '\U{1C}' || c == '\U{1D}'
    || c == '\U{1E}' || c == '\U{85}' || c == '\U{2028}' || c == '\U{2029}'
  }

  /** Index of the first line boundary of `s`, or `|s|` when there is none. */
  function BreakIndex(s: string): (k: nat)
    ensures k <= |s| && (k < |s| ==> IsLineBreak(s[k]))
    ensures forall i :: 0 <= i < k ==> !IsLineBreak(s[i])
  {
    if s == [] || IsLineBreak(s[0]) then 0 else 1 + BreakIndex(s[1..])
  }

  /** `s.splitlines()`: the lines of `s` without their terminators; a final terminator does not
      open an empty last line. */
  function SplitLines(s: string): (lines: seq<string>)
    ensures forall i, j :: 0 <= i < |lines| && 0 <= j < |lines[i]| ==> !IsLineBreak(lines[i][j])
    decreases |s|
  {
    if s == [] then []
    else
      var k := BreakIndex(s);
      if k == |s| then [s]
      else
        var width := if s[k] == '\r' && k + 1 < |s| && s[k + 1] == '\n' then 2 else 1;
        [s[..k]] + SplitLines(s[k + width..])
  }

  /** Each line followed by "\n". */
  function Unlines(lines: seq<string>): string {
    if lines == [] then "" else lines[0] + "\n" + Unlines(lines[1..])
  }

  /** For a text whose only line boundary is '\n', joining the lines back with '\n' gives the text
      again, up to a final '\n' that `splitlines` does not record. */
  lemma {:induction false} SplitLinesUnlines(s: string)
    requires forall i :: 0 <= i < |s| ==> s[i] == '\n' || !IsLineBreak(s[i])
    ensures Unlines(SplitLines(s)) == if s == [] || s[|s| - 1] == '\n' then s else s + "\n"
    decreases |s|
  {
    if s != [] {
      var k := BreakIndex(s);
      if k == |s| {
        SingleLine(s);
      } else {
        var rest := s[k + 1..];
        SplitAtNewline(s, k);
        forall i | 0 <= i < |rest| ensures rest[i] == '\n' || !IsLineBreak(rest[i]) {
          assert rest[i] == s[k + 1 + i];
        }
        SplitLinesUnlines(rest);
        UnlinesStep(s, k, SplitLines(rest));
      }
    }
  }

  /** A non-empty text without a line boundary is one line. */
  lemma SingleLine(s: string)
    requires s != [] && BreakIndex(s) == |s|
    ensures Unlines(SplitLines(s)) == s + "\n" && s[|s| - 1] != '\n'
  {
    assert SplitLines(s) == [s];
    assert Unlines([s]) == s + "\n" + Unlines([]);
  }

  /** At a '\n' boundary, the first line ends and the rest of the text is split on its own. */
  lemma SplitAtNewline(s: string, k: nat)
    requires k == BreakIndex(s) < |s| && s[k] == '\n'
    ensures SplitLines(s) == [s[..k]] + SplitLines(s[k + 1..])
  {
  }

  /** One line more: the text up to the '\n' at `k`, then the rest of the lines. */
  lemma UnlinesStep(s: string, k: nat, lines: seq<string>)
    requires k < |s| && s[k] == '\n'
    requires Unlines(lines) == if s[k + 1..] == [] || s[|s| - 1] == '\n' then s[k + 1..] else s[k + 1..] + "\n"
    ensures Unlines([s[..k]] + lines) == if s[|s| - 1] == '\n' then s else s + "\n"
  {
    assert ([s[..k]] + lines)[1..] == lines;
    assert s == s[..k] + "\n" + s[k + 1..];
  }
}
