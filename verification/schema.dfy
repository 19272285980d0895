/**
 * `read_schema`, shared by both programs: the `CREATE TABLE` statements of the
 * database, run together, cut into lines, each line trimmed, blank lines
 * dropped, and the rest joined with line feeds. This text is what the
 * schema key of a prompt is replaced with.
 */
module Schema {
  import opened Wrappers
  import opened Text
  import opened Lines

  /** `"".join(rows)`: the statements one after the other, with nothing in
      between. */
  function Joined(rows: seq<String>): (r: String)
    ensures |rows| == 1 ==> r == rows[0]
    decreases |rows|
  {
    if rows == [] then [] else rows[0] + Joined(rows[1..])
  }

  /** `[s.strip() for s in lines if s.strip()]`: every line trimmed, the lines
      left empty dropped. */
  function Kept(lines: seq<String>): (r: seq<String>)
    ensures |r| <= |lines|
    ensures forall i :: 0 <= i < |r| ==> r[i] != [] && IsTrimmed(r[i])
    decreases |lines|
  {
    if lines == [] then []
    else
      var t := Trim(lines[0]);
      (if t == [] then [] else [t]) + Kept(lines[1..])
  }

  /** `read_schema`: the statements' non-blank lines, trimmed, one per line. */
  function NormalizeSchema(rows: seq<String>): (schema: String)
    ensures schema == [] <==> Kept(SplitLines(Joined(rows))) == []
  {
    var kept := Kept(SplitLines(Joined(rows)));
    assert kept != [] ==> JoinLines(kept) != [] by {
      if kept != [] {
        LastOfJoin(kept);
      }
    }
    JoinLines(kept)
  }

  // ---------------------------------------------------------------------------
  // Which lines are kept
  // ---------------------------------------------------------------------------

  /** Keeping distributes over running line lists together, so the kept lines
      appear in the order of the lines they came from. */
  lemma {:induction false} KeptAppend(a: seq<String>, b: seq<String>)
    ensures Kept(a + b) == Kept(a) + Kept(b)
    decreases |a|
  {
    if a != [] {
      var t := Trim(a[0]);
      var head := if t == [] then [] else [t];
      assert (a + b)[0] == a[0] && (a + b)[1..] == a[1..] + b;
      assert Kept(a + b) == head + Kept(a[1..] + b);
      KeptAppend(a[1..], b);
      assert Kept(a) == head + Kept(a[1..]);
    } else {
      assert a + b == b;
    }
  }

  /** Every line with text survives, trimmed; everything kept is some line
      trimmed. */
  lemma {:induction false} KeptContents(lines: seq<String>)
    ensures forall i :: 0 <= i < |lines| && Trim(lines[i]) != [] ==> Trim(lines[i]) in Kept(lines)
    ensures forall x :: x in Kept(lines) ==> exists j :: 0 <= j < |lines| && x == Trim(lines[j])
    decreases |lines|
  {
    if lines != [] {
      KeptContents(lines[1..]);
      var head := if Trim(lines[0]) == [] then [] else [Trim(lines[0])];
      assert Kept(lines) == head + Kept(lines[1..]);
      forall x | x in Kept(lines) ensures exists j :: 0 <= j < |lines| && x == Trim(lines[j]) {
        if x in Kept(lines[1..]) {
          var j :| 0 <= j < |lines[1..]| && x == Trim(lines[1..][j]);
          assert x == Trim(lines[j + 1]);
        } else {
          assert x == Trim(lines[0]);
        }
      }
      forall i | 0 <= i < |lines| && Trim(lines[i]) != [] ensures Trim(lines[i]) in Kept(lines) {
        if i > 0 {
          assert lines[i] == lines[1..][i - 1];
        }
      }
    }
  }

  /** Lines already trimmed and non-empty are kept as they are. */
  lemma {:induction false} KeptTrimmed(lines: seq<String>)
    requires forall i :: 0 <= i < |lines| ==> lines[i] != [] && IsTrimmed(lines[i])
    ensures Kept(lines) == lines
    decreases |lines|
  {
    if lines != [] {
      StripTrimmed(lines[0], Whitespace);
      KeptTrimmed(lines[1..]);
      assert lines == [lines[0]] + lines[1..];
    }
  }

  /** A piece of a line holds no line feed either. */
  lemma PieceOfLine(s: String, t: String, k: nat)
    requires IsLine(s) && OccursAt(s, t, k)
    ensures IsLine(t)
  {
    forall i | 0 <= i < |t| ensures t[i] != '\n' {
      assert t[i] == s[k..k + |t|][i] == s[k + i];
    }
  }

  /** Trimming lines keeps them lines. */
  lemma {:induction false} KeptAreLines(lines: seq<String>)
    requires forall i :: 0 <= i < |lines| ==> IsLine(lines[i])
    ensures forall i :: 0 <= i < |Kept(lines)| ==> IsLine(Kept(lines)[i])
    decreases |lines|
  {
    if lines != [] {
      var k := StripIsSlice(lines[0], Whitespace);
      PieceOfLine(lines[0], Trim(lines[0]), k);
      KeptAreLines(lines[1..]);
    }
  }

  // ---------------------------------------------------------------------------
  // The schema text
  // ---------------------------------------------------------------------------

  /** Reading the schema's lines back gives exactly the kept lines of the
      statements, in order: none blank, none with whitespace at either end. */
  lemma SchemaLines(rows: seq<String>)
    ensures var schema := NormalizeSchema(rows);
      && SplitLines(schema) == Kept(SplitLines(Joined(rows)))
      && forall i :: 0 <= i < |SplitLines(schema)| ==> SplitLines(schema)[i] != [] && IsTrimmed(SplitLines(schema)[i])
  {
    var kept := Kept(SplitLines(Joined(rows)));
    KeptAreLines(SplitLines(Joined(rows)));
    SplitLinesJoin(kept);
  }

  /** Normalising an already normalised schema changes nothing. */
  lemma SchemaIdempotent(rows: seq<String>)
    ensures NormalizeSchema([NormalizeSchema(rows)]) == NormalizeSchema(rows)
  {
    var schema := NormalizeSchema(rows);
    SchemaLines(rows);
    assert Joined([schema]) == schema;
    KeptTrimmed(SplitLines(schema));
  }

  /** A schema held in one row that is already one trimmed line comes back
      unchanged. */
  lemma OneTrimmedLine(line: String)
    requires line != [] && IsLine(line) && IsTrimmed(line)
    ensures NormalizeSchema([line]) == line
  {
    SplitLinesJoin([line]);
    KeptTrimmed([line]);
  }
}
