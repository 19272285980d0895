/**
 * The text clean-up `prepare_prompt` applies to every turn before substituting
 * placeholders: strip line feeds at both ends, `textwrap.dedent`, strip
 * whitespace, then turn every lone line feed into a space so that wrapped
 * lines become one paragraph while blank-line paragraph breaks stay.
 */
module Layout {
  import opened Wrappers
  import opened Text
  import opened Lines

  /** The characters `textwrap.dedent` treats as indentation. */
  const Indentation: set<char> := {' ', '\t'}

  // ---------------------------------------------------------------------------
  // textwrap.dedent
  // ---------------------------------------------------------------------------

  /** A non-empty line of spaces and tabs only, `^[ \t]+$`: dedent empties it. */
  predicate IsBlank(line: String) {
    line != [] && AllIn(line, Indentation)
  }

  /** A line with a character other than a space or a tab. */
  predicate HasText(line: String) {
    !AllIn(line, Indentation)
  }

  function ClearBlank(line: String): String {
    if IsBlank(line) then [] else line
  }

  /** The leading run of spaces and tabs of `line`. */
  function IndentOf(line: String): (r: String)
    ensures StartsWith(line, r) && AllIn(r, Indentation)
    ensures |r| == |line| || line[|r|] !in Indentation
  {
    var rest := LStrip(line, Indentation);
    LStripSuffix(line, Indentation);
    assert line == line[..|line| - |rest|] + rest;
    line[..|line| - |rest|]
  }

  /** The longest common prefix of two strings. */
  function CommonPrefix(a: String, b: String): (r: String)
    ensures StartsWith(a, r) && StartsWith(b, r)
    ensures forall p :: StartsWith(a, p) && StartsWith(b, p) ==> StartsWith(r, p)
  {
    if a == [] || b == [] || a[0] != b[0] then []
    else
      var r := [a[0]] + CommonPrefix(a[1..], b[1..]);
      forall p | StartsWith(a, p) && StartsWith(b, p) ensures StartsWith(r, p) {
        if p != [] {
          assert StartsWith(a[1..], p[1..]) && StartsWith(b[1..], p[1..]);
        }
      }
      r
  }

  /** The margin dedent removes: scanning the lines in order, the common
      prefix of the indents of the lines with text (CPython narrows the margin
      by three cases that all compute this common prefix); `None` when no
      line has text. */
  function MarginFrom(lines: seq<String>, acc: Option<String>): (r: Option<String>)
    ensures r.None? <==> acc.None? && forall i :: 0 <= i < |lines| ==> !HasText(lines[i])
    ensures r.Some? ==> forall i :: 0 <= i < |lines| && HasText(lines[i]) ==> StartsWith(IndentOf(lines[i]), r.value)
    ensures r.Some? && acc.Some? ==> StartsWith(acc.value, r.value)
    ensures r.Some? && (acc.None? || AllIn(acc.value, Indentation)) ==> AllIn(r.value, Indentation)
    ensures r.Some? ==> forall p :: (acc.Some? ==> StartsWith(acc.value, p))
                                  && (forall i :: 0 <= i < |lines| && HasText(lines[i]) ==> StartsWith(IndentOf(lines[i]), p))
                                  ==> StartsWith(r.value, p)
    decreases |lines|
  {
    if lines == [] then acc
    else
      var next :=
        if !HasText(lines[0]) then acc
        else match acc
          case None => Some(IndentOf(lines[0]))
          case Some(m) => Some(CommonPrefix(m, IndentOf(lines[0])));
      var r := MarginFrom(lines[1..], next);
      assert forall i :: 1 <= i < |lines| ==> lines[i] == lines[1..][i - 1];
      r
  }

  function DedentLine(line: String, margin: String): String {
    if StartsWith(line, margin) then line[|margin|..] else line
  }

  /** `textwrap.dedent(s)`: blank lines become empty, and the longest run of
      spaces and tabs that starts every line with text is removed from each
      of them. */
  function Dedent(s: String): (r: String)
    ensures DedentsTo(Split(s), Split(r))
  {
    var outs := DedentLines(Split(s));
    SplitJoin(outs);
    JoinLines(outs)
  }

  /** Dedent on the text already split at line feeds. */
  function DedentLines(ins: seq<String>): (outs: seq<String>)
    requires forall i :: 0 <= i < |ins| ==> IsLine(ins[i])
    ensures |outs| == |ins|
    ensures forall i :: 0 <= i < |outs| ==> IsLine(outs[i])
    ensures DedentsTo(ins, outs)
  {
    var cleared := ClearBlanks(ins);
    var margin := MarginFrom(cleared, None).GetOr([]);
    MarginFromIsLongest(ins);
    assert forall i :: 0 <= i < |cleared| && HasText(cleared[i]) ==> StartsWith(cleared[i], margin);
    var outs := RemoveMargin(cleared, margin);
    forall i | 0 <= i < |ins|
      ensures if HasText(ins[i]) then ins[i] == margin + outs[i] else outs[i] == []
    {
      assert HasText(cleared[i]) == HasText(ins[i]);
    }
    forall i | 0 <= i < |outs| ensures IsLine(outs[i]) {
      if HasText(ins[i]) {
        SuffixOfLine(ins[i], margin, outs[i]);
      }
    }
    DedentsToWitness(ins, outs, margin);
    outs
  }

  /** The margin `MarginFrom` finds over the lines with blanks cleared is
      the longest common margin of the lines. */
  lemma MarginFromIsLongest(ins: seq<String>)
    ensures LongestMargin(ins, MarginFrom(ClearBlanks(ins), None).GetOr([]))
  {
    var cleared := ClearBlanks(ins);
    var found := MarginFrom(cleared, None);
    MarginStartsLines(ins, cleared, found);
    if exists k :: 0 <= k < |ins| && HasText(ins[k]) {
      var k :| 0 <= k < |ins| && HasText(ins[k]);
      assert HasText(cleared[k]);
      MarginIsMaximal(ins, cleared, found.value);
    }
  }

  lemma MarginStartsLines(ins: seq<String>, cleared: seq<String>, found: Option<String>)
    requires cleared == ClearBlanks(ins) && found == MarginFrom(cleared, None)
    ensures forall i :: 0 <= i < |ins| && HasText(ins[i]) ==> StartsWith(ins[i], found.GetOr([]))
  {
    var margin := found.GetOr([]);
    forall i | 0 <= i < |ins| && HasText(ins[i]) ensures StartsWith(ins[i], margin) {
      assert cleared[i] == ins[i] && HasText(cleared[i]);
      var indent := IndentOf(ins[i]);
      assert StartsWith(indent, margin);
      assert ins[i][..|margin|] == indent[..|margin|];
    }
  }

  lemma MarginIsMaximal(ins: seq<String>, cleared: seq<String>, margin: String)
    requires cleared == ClearBlanks(ins) && MarginFrom(cleared, None) == Some(margin)
    ensures forall p :: AllIn(p, Indentation)
                     && (forall i :: 0 <= i < |ins| && HasText(ins[i]) ==> StartsWith(ins[i], p))
                     ==> StartsWith(margin, p)
  {
    forall p | AllIn(p, Indentation) && (forall i :: 0 <= i < |ins| && HasText(ins[i]) ==> StartsWith(ins[i], p))
      ensures StartsWith(margin, p)
    {
      forall i | 0 <= i < |cleared| && HasText(cleared[i]) ensures StartsWith(IndentOf(cleared[i]), p) {
        assert cleared[i] == ins[i];
        IndentCoversPrefix(ins[i], p);
      }
    }
  }

  function ClearBlanks(lines: seq<String>): (r: seq<String>)
    ensures |r| == |lines|
    ensures forall i :: 0 <= i < |lines| ==> r[i] == (if HasText(lines[i]) then lines[i] else [])
    ensures forall i :: 0 <= i < |lines| ==> HasText(r[i]) == HasText(lines[i])
  {
    seq(|lines|, i requires 0 <= i < |lines| => ClearBlank(lines[i]))
  }

  /** Takes `margin` off every line with text, where every such line has it. */
  function RemoveMargin(lines: seq<String>, margin: String): (r: seq<String>)
    requires forall i :: 0 <= i < |lines| ==> if HasText(lines[i]) then StartsWith(lines[i], margin) else lines[i] == []
    ensures |r| == |lines|
    ensures forall i :: 0 <= i < |lines| ==>
      if HasText(lines[i]) then lines[i] == margin + r[i] else r[i] == []
  {
    var r := seq(|lines|, i requires 0 <= i < |lines| => DedentLine(lines[i], margin));
    assert forall i :: 0 <= i < |lines| && HasText(lines[i]) ==> lines[i] == margin + r[i];
    r
  }

  /** `margin` is the margin `textwrap.dedent` removes from `lines`: spaces
      and tabs that start every line with text, and, when some line has text,
      the longest such run (every other common run is a prefix of it). */
  ghost predicate LongestMargin(lines: seq<String>, margin: String) {
    && AllIn(margin, Indentation)
    && (forall i :: 0 <= i < |lines| && HasText(lines[i]) ==> StartsWith(lines[i], margin))
    && ((exists i :: 0 <= i < |lines| && HasText(lines[i])) ==>
          forall p :: AllIn(p, Indentation)
                   && (forall i :: 0 <= i < |lines| && HasText(lines[i]) ==> StartsWith(lines[i], p))
                   ==> StartsWith(margin, p))
  }

  /** Line by line, `outs` is `ins` with blank lines emptied and the longest
      common margin of spaces and tabs taken off every line with text. */
  ghost predicate DedentsTo(ins: seq<String>, outs: seq<String>) {
    && |outs| == |ins|
    && exists margin {:trigger LongestMargin(ins, margin)} ::
         && LongestMargin(ins, margin)
         && forall i :: 0 <= i < |ins| ==>
              if HasText(ins[i]) then ins[i] == margin + outs[i] else outs[i] == []
  }

  /** A run of spaces and tabs that starts a line is a prefix of the line's
      indent. */
  lemma IndentCoversPrefix(line: String, p: String)
    requires AllIn(p, Indentation) && StartsWith(line, p)
    ensures StartsWith(IndentOf(line), p)
  {
    var d := IndentOf(line);
    assert |p| <= |d|;
    assert d == line[..|d|];
    assert d[..|p|] == line[..|p|];
  }

  /** The dedent contract determines the result: two outputs that both meet
      it for the same input are equal. */
  lemma DedentsToUnique(ins: seq<String>, a: seq<String>, b: seq<String>)
    requires DedentsTo(ins, a) && DedentsTo(ins, b)
    ensures a == b
  {
    var ma :| LongestMargin(ins, ma) && forall i :: 0 <= i < |ins| ==>
      if HasText(ins[i]) then ins[i] == ma + a[i] else a[i] == [];
    var mb :| LongestMargin(ins, mb) && forall i :: 0 <= i < |ins| ==>
      if HasText(ins[i]) then ins[i] == mb + b[i] else b[i] == [];
    forall i | 0 <= i < |ins| ensures a[i] == b[i] {
      if HasText(ins[i]) {
        assert StartsWith(ma, mb) && StartsWith(mb, ma);
        assert ma == mb;
        assert a[i] == ins[i][|ma|..];
        assert b[i] == ins[i][|mb|..];
      }
    }
  }

  lemma SuffixOfLine(s: String, a: String, b: String)
    requires IsLine(s) && s == a + b
    ensures IsLine(b)
  {
    assert forall i :: 0 <= i < |b| ==> b[i] == s[|a| + i];
  }

  lemma DedentsToWitness(ins: seq<String>, outs: seq<String>, margin: String)
    requires |outs| == |ins| && LongestMargin(ins, margin)
    requires forall i :: 0 <= i < |ins| ==> if HasText(ins[i]) then ins[i] == margin + outs[i] else outs[i] == []
    ensures DedentsTo(ins, outs)
  {
  }

  /** A single line that does not start with indentation is left alone. */
  lemma DedentFlatLine(s: String)
    requires IsLine(s) && (s == [] || s[0] !in Indentation)
    ensures Dedent(s) == s
  {
    SplitJoin([s]);
    var r := Dedent(s);
    var outs := Split(r);
    assert Split(s) == [s];
    assert JoinLines(outs) == r;
    if HasText(s) {
      var m :| LongestMargin([s], m) && s == m + outs[0];
      assert m == [];
    }
  }

  // ---------------------------------------------------------------------------
  // re.sub(r"(?<!\n)\n(?!\n)", " ", s)
  // ---------------------------------------------------------------------------

  /** The line feed at `i` has no line feed right before or after it. */
  predicate IsLoneNewline(s: String, i: int)
    requires 0 <= i < |s|
  {
    IsLoneAfter(s, i, false)
  }

  /** As `IsLoneNewline` for a suffix of a longer text; `afterNewline` says
      whether the character before `s` is a line feed. */
  predicate IsLoneAfter(s: String, i: int, afterNewline: bool)
    requires 0 <= i < |s|
  {
    s[i] == '\n' && (if i == 0 then !afterNewline else s[i - 1] != '\n') && (i == |s| - 1 || s[i + 1] != '\n')
  }

  /** The character at `i` after collapsing: a space for a lone line feed,
      the character itself otherwise. */
  function UnwrappedAt(s: String, i: int, afterNewline: bool): char
    requires 0 <= i < |s|
  {
    if IsLoneAfter(s, i, afterNewline) then ' ' else s[i]
  }

  /** Every lone line feed becomes a space; nothing else changes. */
  function CollapseNewlines(s: String): (r: String)
    ensures |r| == |s|
    ensures forall i :: 0 <= i < |s| ==> r[i] == UnwrappedAt(s, i, false)
  {
    Unwrap(s, false)
  }

  /** Left-to-right scan carrying the look-behind. */
  function Unwrap(s: String, afterNewline: bool): (r: String)
    ensures |r| == |s|
    ensures forall i :: 0 <= i < |s| ==> r[i] == UnwrappedAt(s, i, afterNewline)
    decreases |s|
  {
    if s == [] then []
    else
      var c := if IsLoneAfter(s, 0, afterNewline) then ' ' else s[0];
      var tail := Unwrap(s[1..], s[0] == '\n');
      var r := [c] + tail;
      forall i | 0 < i < |s|
        ensures r[i] == UnwrappedAt(s, i, afterNewline)
      {
        assert r[i] == tail[i - 1] && s[1..][i - 1] == s[i];
        assert IsLoneAfter(s, i, afterNewline) <==> IsLoneAfter(s[1..], i - 1, s[0] == '\n');
      }
      r
  }

  /** Collapsing twice is collapsing once: every line feed that survives sits
      next to another surviving line feed. */
  lemma CollapseIdempotent(s: String)
    ensures CollapseNewlines(CollapseNewlines(s)) == CollapseNewlines(s)
  {
    var r := CollapseNewlines(s);
    var rr := CollapseNewlines(r);
    forall i | 0 <= i < |r| ensures rr[i] == r[i] {
      if r[i] == '\n' {
        assert !IsLoneNewline(s, i);
        if i > 0 && s[i - 1] == '\n' {
          assert !IsLoneNewline(s, i - 1);
        } else {
          assert !IsLoneNewline(s, i + 1);
        }
      }
    }
  }

  /** Paragraph breaks survive: wherever `s` has two line feeds in a row, so
      does the result. */
  lemma CollapseKeepsBreaks(s: String, i: int)
    requires 0 <= i && i + 1 < |s| && s[i] == '\n' && s[i + 1] == '\n'
    ensures CollapseNewlines(s)[i] == '\n' && CollapseNewlines(s)[i + 1] == '\n'
  {
  }

  /** Text without line feeds is left alone. */
  lemma CollapseFlat(s: String)
    requires IsLine(s)
    ensures CollapseNewlines(s) == s
  {
  }

  // ---------------------------------------------------------------------------
  // The whole clean-up
  // ---------------------------------------------------------------------------

  /** `re.sub(..., textwrap.dedent(content.strip("\n")).strip())`. */
  function Normalize(content: String): String {
    CollapseNewlines(Trim(Dedent(Strip(content, {'\n'}))))
  }

  /** Collapsing trimmed text keeps it trimmed and leaves no lone line feed. */
  lemma CollapseShape(t: String)
    requires IsTrimmed(t)
    ensures IsTrimmed(CollapseNewlines(t))
    ensures forall i :: 0 <= i < |CollapseNewlines(t)| ==> !IsLoneNewline(CollapseNewlines(t), i)
  {
    var r := CollapseNewlines(t);
    if r != [] {
      assert r[0] == t[0] && r[|r| - 1] == t[|t| - 1];
    }
    CollapseIdempotent(t);
    forall i | 0 <= i < |r| ensures !IsLoneNewline(r, i) {
      assert CollapseNewlines(r)[i] == r[i];
    }
  }

  /** What the clean-up leaves: no whitespace at either end, and no lone
      line feed, so that every line break left is part of a paragraph break. */
  lemma NormalizeShape(content: String)
    ensures IsTrimmed(Normalize(content))
    ensures forall i :: 0 <= i < |Normalize(content)| ==> !IsLoneNewline(Normalize(content), i)
  {
    CollapseShape(Trim(Dedent(Strip(content, {'\n'}))));
  }

  /** A one-line content with nothing to trim is already normal: this is how
      a turn holding only a placeholder keeps the placeholder intact. */
  lemma NormalizeFlat(content: String)
    requires IsLine(content) && IsTrimmed(content)
    ensures Normalize(content) == content
  {
    StripTrimmed(content, {'\n'});
    DedentFlatLine(content);
    StripTrimmed(content, Whitespace);
    CollapseFlat(content);
  }
}
