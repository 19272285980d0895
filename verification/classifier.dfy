/**
 * The response classifier (`is_text_answer`): a reply is a SQL candidate when,
 * after dropping comment lines, it begins with SELECT or WITH in any case;
 * anything else is a plain-language answer or refusal.
 */
module Classifier {
  import opened Wrappers
  import opened Text
  import opened Lines

  /** Upper-cased text that begins with one of the two query keywords. */
  predicate BeginsWithKeyword(upper: String) {
    StartsWith(upper, "SELECT") || StartsWith(upper, "WITH")
  }

  /** A line whose trimmed form starts with the SQL comment marker `--`. */
  predicate IsCommentLine(line: String) {
    StartsWith(Trim(line), "--")
  }

  /** The lines that are not comment lines, in their order. */
  function DropComments(lines: seq<String>): (r: seq<String>)
    ensures |r| <= |lines|
    ensures forall i :: 0 <= i < |r| ==> !IsCommentLine(r[i])
  {
    if lines == [] then []
    else if IsCommentLine(lines[0]) then DropComments(lines[1..])
    else [lines[0]] + DropComments(lines[1..])
  }

  /** A line survives exactly when it is one of the input lines and not a
      comment: nothing is added and nothing else is lost. */
  lemma {:induction false} DropCommentsContents(lines: seq<String>)
    ensures forall x :: x in DropComments(lines) <==> x in lines && !IsCommentLine(x)
    decreases |lines|
  {
    if lines != [] {
      DropCommentsContents(lines[1..]);
      assert lines == [lines[0]] + lines[1..];
    }
  }

  /** Dropping comments works line by line, so the lines kept stay in their
      order. */
  lemma {:induction false} DropCommentsAppend(a: seq<String>, b: seq<String>)
    ensures DropComments(a + b) == DropComments(a) + DropComments(b)
    decreases |a|
  {
    if a == [] {
      assert a + b == b;
    } else {
      assert (a + b)[0] == a[0] && (a + b)[1..] == a[1..] + b;
      DropCommentsAppend(a[1..], b);
    }
  }

  /** `is_text_answer(message)`. */
  predicate IsTextAnswer(message: String) {
    var text := JoinLines(DropComments(SplitLines(message)));
    !BeginsWithKeyword(Trim(Upper(text)))
  }

  // ---------------------------------------------------------------------------
  // Reference: the first line that says anything decides
  // ---------------------------------------------------------------------------

  /** The first line that is neither a comment nor blank, without its leading
      whitespace. */
  function FirstStatementLine(lines: seq<String>): (r: Option<String>)
    ensures r.Some? ==> r.value != []
  {
    if lines == [] then None
    else if IsCommentLine(lines[0]) || LStrip(lines[0], Whitespace) == [] then FirstStatementLine(lines[1..])
    else Some(LStrip(lines[0], Whitespace))
  }

  /** A reply is a SQL candidate exactly when its first line that is neither a
      comment nor blank begins, in any case and after leading whitespace, with
      SELECT or WITH. */
  lemma IsTextAnswerByFirstLine(message: String)
    ensures IsTextAnswer(message) <==>
      match FirstStatementLine(SplitLines(message))
      case None => true
      case Some(line) => !BeginsWithKeyword(Upper(line))
  {
    var lines := SplitLines(message);
    var text := JoinLines(DropComments(lines));
    KeywordIgnoresTrailing(Upper(text));
    UpperLStrip(text);
    LeadingLine(lines);
    match FirstStatementLine(lines)
    case None =>
    case Some(f) => KeywordOfLeadingLine(LStrip(text, Whitespace), f);
  }

  /** `x` starts with `f`, followed by a line feed or nothing. */
  predicate Leads(x: String, f: String) {
    StartsWith(x, f) && (|x| == |f| || x[|f|] == '\n')
  }

  /** Trailing whitespace cannot affect a keyword prefix. */
  lemma KeywordIgnoresTrailing(x: String)
    ensures BeginsWithKeyword(Trim(x)) <==> BeginsWithKeyword(LStrip(x, Whitespace))
  {
    var y := LStrip(x, Whitespace);
    var z := Trim(x);
    assert z == RStrip(y, Whitespace);
    assert StartsWith(z, "SELECT") <==> StartsWith(y, "SELECT") by {
      PrefixSurvivesRStrip(y, "SELECT");
    }
    assert StartsWith(z, "WITH") <==> StartsWith(y, "WITH") by {
      PrefixSurvivesRStrip(y, "WITH");
    }
  }

  /** A prefix that ends in a non-whitespace character is a prefix of the
      right-stripped text exactly when it is one of the text. */
  lemma PrefixSurvivesRStrip(y: String, p: String)
    requires p != [] && p[|p| - 1] !in Whitespace
    ensures StartsWith(RStrip(y, Whitespace), p) <==> StartsWith(y, p)
  {
    var z := RStrip(y, Whitespace);
    RStripPrefix(y, Whitespace);
    if StartsWith(y, p) {
      assert z[..|p|] == y[..|p|];
    }
    if StartsWith(z, p) {
      assert y[..|p|] == z[..|p|];
    }
  }

  /** After leading whitespace, the joined non-comment text starts with the
      first statement line, or is empty when there is none. */
  lemma {:induction false} LeadingLine(lines: seq<String>)
    requires forall i :: 0 <= i < |lines| ==> IsLine(lines[i])
    ensures var x := LStrip(JoinLines(DropComments(lines)), Whitespace);
      match FirstStatementLine(lines)
      case None => x == []
      case Some(f) => Leads(x, f)
    decreases |lines|
  {
    if lines != [] {
      var l := lines[0];
      var rest := lines[1..];
      LeadingLine(rest);
      var kept := DropComments(rest);
      if !IsCommentLine(l) {
        assert DropComments(lines) == [l] + kept;
        if LStrip(l, Whitespace) == [] {
          LeadingBlank(l, kept, FirstStatementLine(rest));
        } else {
          LeadingText(l, kept);
        }
      }
    }
  }

  /** A blank first line is skipped over. */
  lemma LeadingBlank(l: String, kept: seq<String>, first: Option<String>)
    requires LStrip(l, Whitespace) == []
    requires first.Some? ==> first.value != []
    requires var x := LStrip(JoinLines(kept), Whitespace);
      match first
      case None => x == []
      case Some(f) => Leads(x, f)
    ensures var x := LStrip(JoinLines([l] + kept), Whitespace);
      match first
      case None => x == []
      case Some(f) => Leads(x, f)
  {
    assert LStrip(JoinLines([l] + kept), Whitespace) == LStrip(JoinLines(kept), Whitespace) by {
      SkipBlank(l, kept);
    }
  }

  lemma SkipBlank(l: String, kept: seq<String>)
    requires LStrip(l, Whitespace) == []
    ensures kept == [] ==> LStrip(JoinLines([l] + kept), Whitespace) == []
    ensures kept != [] ==> LStrip(JoinLines([l] + kept), Whitespace) == LStrip(JoinLines(kept), Whitespace)
  {
    var ls := [l] + kept;
    assert ls[0] == l && ls[1..] == kept;
    if kept != [] {
      LStripAllWhitespace(l, JoinLines(kept));
    }
  }

  /** A first line with text leads the joined text after its indentation. */
  lemma LeadingText(l: String, kept: seq<String>)
    requires LStrip(l, Whitespace) != []
    ensures Leads(LStrip(JoinLines([l] + kept), Whitespace), LStrip(l, Whitespace))
  {
    var f := LStrip(l, Whitespace);
    if kept == [] {
      assert JoinLines([l] + kept) == l;
    } else {
      assert JoinLines([l] + kept) == l + ("\n" + JoinLines(kept));
      LStripStops(l, "\n" + JoinLines(kept));
      assert (f + ("\n" + JoinLines(kept)))[|f|] == '\n';
    }
  }

  lemma {:induction false} LStripAllWhitespace(a: String, b: String)
    requires LStrip(a, Whitespace) == []
    ensures LStrip(a + "\n" + b, Whitespace) == LStrip(b, Whitespace)
    decreases |a|
  {
    if a == [] {
      var c := a + "\n" + b;
      assert c[0] == '\n' && '\n' in Whitespace;
      assert c[1..] == b;
    } else {
      assert (a + "\n" + b)[1..] == a[1..] + "\n" + b;
      LStripAllWhitespace(a[1..], b);
    }
  }

  lemma {:induction false} LStripStops(a: String, b: String)
    requires LStrip(a, Whitespace) != []
    ensures LStrip(a + b, Whitespace) == LStrip(a, Whitespace) + b
    decreases |a|
  {
    if a[0] in Whitespace {
      assert (a + b)[1..] == a[1..] + b;
      LStripStops(a[1..], b);
    }
  }

  /** A keyword has no line feed, so it begins `x` exactly when it begins the
      line `f` that `x` starts with. */
  lemma KeywordOfLeadingLine(x: String, f: String)
    requires Leads(x, f)
    ensures BeginsWithKeyword(Upper(x)) <==> BeginsWithKeyword(Upper(f))
  {
    var ux := Upper(x);
    var uf := Upper(f);
    assert ux[..|f|] == uf;
    if |x| > |f| {
      assert ux[|f|] == '\n';
    }
  }

  /** Text that opens with a keyword, with nothing before it, is a query
      whatever follows. */
  lemma KeywordLedIsQuery(m: String)
    requires BeginsWithKeyword(Upper(m))
    ensures !IsTextAnswer(m)
  {
    KeywordInitial(m);
    var l := LetterLedFirstLine(m);
    KeywordOfLeadingLine(m, l);
    QueryByFirstLine(m, l);
  }

  /** When the text opens with a letter, its first line is the first
      statement line, and it leads the text. */
  lemma LetterLedFirstLine(m: String) returns (l: String)
    requires m != [] && m[0] in {'S', 's', 'W', 'w'}
    ensures FirstStatementLine(SplitLines(m)) == Some(l) && Leads(m, l)
  {
    var lines := SplitLines(m);
    SplitLinesLeads(m);
    l := lines[0];
    assert l != [] && l[0] == m[0];
    assert l[0] !in Whitespace && l[0] != '-';
    assert LStrip(l, Whitespace) == l;
    assert !IsCommentLine(l) by {
      CommentIffLStrip(l);
    }
  }

  /** A keyword prefix of the upper-cased text means the text opens with one
      of the letters S or W, in either case. */
  lemma KeywordInitial(m: String)
    requires BeginsWithKeyword(Upper(m))
    ensures m != [] && m[0] in {'S', 's', 'W', 'w'}
  {
    var u := Upper(m);
    assert u[0] == u[..4][0];
    assert u[0] == UpperChar(m[0]);
  }

  /** The text begins with its first line, which a line feed ends. */
  lemma SplitLinesLeads(m: String)
    requires m != []
    ensures SplitLines(m) != [] && Leads(m, SplitLines(m)[0])
  {
    var lines := SplitLines(m);
    var j := JoinLines(lines);
    assert Leads(j, lines[0]) by {
      if |lines| > 1 {
        assert j == lines[0] + "\n" + JoinLines(lines[1..]);
        assert j[..|lines[0]|] == lines[0];
      }
    }
    if m[|m| - 1] == '\n' {
      assert m == j + "\n";
      assert m[..|lines[0]|] == j[..|lines[0]|];
    }
  }

  // ---------------------------------------------------------------------------
  // Examples
  // ---------------------------------------------------------------------------

  /** An empty reply and a comment-only reply are plain-language answers. */
  lemma EmptyAndCommentOnlyAreText(comment: String)
    requires IsLine(comment) && IsCommentLine(comment)
    ensures IsTextAnswer([]) && IsTextAnswer(comment)
  {
    assert FirstStatementLine(SplitLines([])) == None;
    IsTextAnswerByFirstLine([]);
    assert comment != [] by {
      CommentIffLStrip(comment);
    }
    assert SplitLines(comment) == [comment] by {
      SplitLinesJoin([comment]);
    }
    assert FirstStatementLine([comment]) == None;
    IsTextAnswerByFirstLine(comment);
  }

  /** A one-line reply in prose, one that does not open with S, W or a dash,
      is a plain-language answer. */
  lemma ProseIsText(m: String)
    requires IsLine(m) && m != [] && m[0] !in Whitespace
    requires m[0] !in {'S', 's', 'W', 'w', '-'}
    ensures IsTextAnswer(m)
  {
    assert SplitLines(m) == [m] by {
      SplitLinesJoin([m]);
    }
    assert LStrip(m, Whitespace) == m;
    assert !IsCommentLine(m) by {
      CommentIffLStrip(m);
    }
    assert FirstStatementLine([m]) == Some(m);
    assert !BeginsWithKeyword(Upper(m)) by {
      assert Upper(m)[0] == UpperChar(m[0]);
    }
    IsTextAnswerByFirstLine(m);
  }

  /** A query after a comment line, indented or not and in any case, is a
      SQL candidate. */
  lemma CommentedQueryIsSql(comment: String, line: String)
    requires IsLine(comment) && IsCommentLine(comment)
    requires IsLine(line) && BeginsWithKeyword(Upper(LStrip(line, Whitespace)))
    ensures !IsTextAnswer(comment + "\n" + line)
  {
    var query := LStrip(line, Whitespace);
    CommentedQueryFirstLine(comment, line);
    QueryByFirstLine(comment + "\n" + line, query);
  }

  /** The comment is skipped and the query line is the first statement. */
  lemma CommentedQueryFirstLine(comment: String, line: String)
    requires IsLine(comment) && IsCommentLine(comment)
    requires IsLine(line) && BeginsWithKeyword(Upper(LStrip(line, Whitespace)))
    ensures FirstStatementLine(SplitLines(comment + "\n" + line)) == Some(LStrip(line, Whitespace))
  {
    var lines := SplitLines(comment + "\n" + line);
    TwoLines(comment, line);
    assert !IsCommentLine(line) by {
      KeywordNotComment(line, LStrip(line, Whitespace));
    }
    assert lines[1..] == [line];
  }

  /** Two lines joined by a line feed split back into the two. */
  lemma TwoLines(a: String, b: String)
    requires IsLine(a) && IsLine(b) && b != []
    ensures SplitLines(a + "\n" + b) == [a, b]
  {
    assert JoinLines([a, b]) == a + "\n" + b;
    SplitLinesJoin([a, b]);
  }

  /** A reply whose first statement line opens with a keyword is a query. */
  lemma QueryByFirstLine(m: String, first: String)
    requires FirstStatementLine(SplitLines(m)) == Some(first)
    requires BeginsWithKeyword(Upper(first))
    ensures !IsTextAnswer(m)
  {
    IsTextAnswerByFirstLine(m);
  }

  /** A line whose text opens with a keyword, in any case, is not a
      comment. */
  lemma KeywordNotComment(line: String, query: String)
    requires LStrip(line, Whitespace) == query && BeginsWithKeyword(Upper(query))
    ensures !IsCommentLine(line)
  {
    var u := Upper(query);
    assert u[0] == 'S' || u[0] == 'W' by {
      if StartsWith(u, "SELECT") {
        assert u[..6] == "SELECT";
      } else {
        assert u[..4] == "WITH";
      }
    }
    assert u[0] == UpperChar(query[0]);
    assert query[0] != '-';
    assert !StartsWith(query, "--");
    CommentIffLStrip(line);
  }

  /** Whether a line is a comment is decided by its text after indentation. */
  lemma CommentIffLStrip(line: String)
    ensures IsCommentLine(line) <==> StartsWith(LStrip(line, Whitespace), "--")
  {
    PrefixSurvivesRStrip(LStrip(line, Whitespace), "--");
  }
}
