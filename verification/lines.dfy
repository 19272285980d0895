/**
 * Splitting text into lines and joining lines back, with the line feed as the
 * only line boundary: Python's `s.split("\n")`, `"\n".join(lines)` and
 * `s.splitlines()`.
 */
module Lines {
  import opened Wrappers
  import opened Text

  /** No line feed anywhere in `s`. */
  predicate IsLine(s: String) {
    forall i :: 0 <= i < |s| ==> s[i] != '\n'
  }

  /** `"\n".join(lines)`. */
  function JoinLines(lines: seq<String>): String {
    if lines == [] then []
    else if |lines| == 1 then lines[0]
    else lines[0] + "\n" + JoinLines(lines[1..])
  }

  /** `s.split("\n")`: the pieces between line feeds; one piece more than
      there are line feeds, and joining them gives `s` back. */
  function Split(s: String): (r: seq<String>)
    ensures |r| >= 1
    ensures forall i :: 0 <= i < |r| ==> IsLine(r[i])
    ensures JoinLines(r) == s
    decreases |s|
  {
    match Find(s, "\n")
    case None =>
      assert IsLine(s) by {
        forall i | 0 <= i < |s| ensures s[i] != '\n' {
          OccursAtChar(s, '\n', i);
        }
      }
      [s]
    case Some(k) =>
      assert IsLine(s[..k]) by {
        forall i | 0 <= i < k ensures s[i] != '\n' {
          OccursAtChar(s, '\n', i);
        }
      }
      OccursAtChar(s, '\n', k);
      var rest := Split(s[k + 1..]);
      assert s == s[..k] + "\n" + s[k + 1..];
      [s[..k]] + rest
  }

  /** Joining lines that hold no line feed and splitting again gives the
      same lines back. */
  lemma {:induction false} SplitJoin(lines: seq<String>)
    requires |lines| >= 1
    requires forall i :: 0 <= i < |lines| ==> IsLine(lines[i])
    ensures Split(JoinLines(lines)) == lines
    decreases |lines|
  {
    var l := lines[0];
    var j := JoinLines(lines);
    if |lines| == 1 {
      forall i | true ensures !OccursAt(j, "\n", i) {
        OccursAtChar(j, '\n', i);
      }
    } else {
      var rest := lines[1..];
      assert j == l + "\n" + JoinLines(rest);
      OccursAtChar(j, '\n', |l|);
      forall i | 0 <= i < |l| ensures !OccursAt(j, "\n", i) {
        OccursAtChar(j, '\n', i);
      }
      assert Find(j, "\n") == Some(|l|);
      assert j[..|l|] == l;
      assert j[|l| + 1..] == JoinLines(rest);
      SplitJoin(rest);
    }
  }

  /** `s.splitlines()` with the line feed as the only boundary: a final line
      feed ends the last line rather than starting an empty one, and the empty
      string has no lines at all. */
  function SplitLines(s: String): (r: seq<String>)
    ensures forall i :: 0 <= i < |r| ==> IsLine(r[i])
    ensures r == [] <==> s == []
    ensures s != [] && s[|s| - 1] == '\n' ==> JoinLines(r) + "\n" == s
    ensures s != [] && s[|s| - 1] != '\n' ==> JoinLines(r) == s
  {
    if s == [] then []
    else if s[|s| - 1] == '\n' then
      assert s == s[..|s| - 1] + "\n";
      Split(s[..|s| - 1])
    else Split(s)
  }

  /** Lines without line feeds whose last line is not empty survive a join
      followed by `splitlines`. */
  lemma SplitLinesJoin(lines: seq<String>)
    requires forall i :: 0 <= i < |lines| ==> IsLine(lines[i])
    requires lines == [] || lines[|lines| - 1] != []
    ensures SplitLines(JoinLines(lines)) == lines
  {
    if lines != [] {
      LastOfJoin(lines);
      SplitJoin(lines);
    }
  }

  /** The joined text ends with the last line. */
  lemma {:induction false} LastOfJoin(lines: seq<String>)
    requires lines != [] && lines[|lines| - 1] != []
    ensures var j := JoinLines(lines); j != [] && j[|j| - 1] == lines[|lines| - 1][|lines[|lines| - 1]| - 1]
    decreases |lines|
  {
    if |lines| > 1 {
      LastOfJoin(lines[1..]);
    }
  }
}
