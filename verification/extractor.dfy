/**
 * Recovering SQL from a reply that wraps it in other text (`fetch` in
 * ai4sqlite3): a Markdown code block between the first and the last
 * triple backtick, or the text after the first colon when that text opens
 * with SELECT or WITH.
 */
module Extractor {
  import opened Wrappers
  import opened Text
  import opened Lines
  import opened Classifier

  /** The Markdown code fence. */
  const Fence: String := "```"

  /** `i` is where `p` first occurs in `s`. */
  ghost predicate FirstAt(s: String, p: String, i: int) {
    OccursAt(s, p, i) && forall k :: 0 <= k < i ==> !OccursAt(s, p, k)
  }

  /** `j` is where `p` last occurs in `s`. */
  ghost predicate LastAt(s: String, p: String, j: int) {
    OccursAt(s, p, j) && forall k :: j < k ==> !OccursAt(s, p, k)
  }

  /** `i` is the position of the first colon in `s`. */
  predicate FirstColonAt(s: String, i: int) {
    0 <= i < |s| && s[i] == ':' && forall k :: 0 <= k < i ==> s[k] != ':'
  }

  // ---------------------------------------------------------------------------
  // extract_md_code_block
  // ---------------------------------------------------------------------------

  /** `extract_md_code_block(text)`: the stripped text between the first and
      the last fence, or `None` when there is no fence or the two fences
      overlap or touch. */
  function ExtractCodeBlock(text: String): (r: Option<String>)
    ensures r.Some? ==> IsTrimmed(r.value)
  {
    match Find(text, Fence)
    case None => None
    case Some(p1) =>
      match RFind(text, Fence)
      case None => None
      case Some(p2) =>
        if p2 <= p1 + 3 then None else Some(Trim(text[p1 + 3..p2]))
  }

  /** The block is there exactly when the last fence starts after the first
      one ends, and it is the text between them, stripped. */
  lemma CodeBlockByFences(text: String, i: int, j: int)
    requires FirstAt(text, Fence, i) && LastAt(text, Fence, j)
    ensures ExtractCodeBlock(text).Some? <==> i + |Fence| < j
    ensures ExtractCodeBlock(text).Some? ==> ExtractCodeBlock(text).value == Trim(text[i + |Fence|..j])
  {
    var p1 := Find(text, Fence);
    var p2 := RFind(text, Fence);
    assert p1 == Some(i);
    assert p2 == Some(j);
  }

  /** Without a fence there is no code block; single backticks, as around a
      column name, do not matter. */
  lemma NoFenceNoBlock(text: String)
    requires forall i :: !OccursAt(text, Fence, i)
    ensures ExtractCodeBlock(text) == None
  {
  }

  /** A body placed between two fences, with no backtick before the first
      or after the last, comes back stripped. */
  lemma FenceRoundTrip(pre: String, body: String, post: String)
    requires '`' !in pre && '`' !in post && body != []
    ensures ExtractCodeBlock(pre + Fence + body + Fence + post) == Some(Trim(body))
  {
    var text := pre + Fence + body + Fence + post;
    var i := |pre|;
    var j := |pre| + 3 + |body|;
    assert FirstAt(text, Fence, i) by {
      assert text[i..i + 3] == Fence;
      forall k | 0 <= k < i ensures !OccursAt(text, Fence, k) {
        assert text[k] == pre[k];
      }
    }
    assert LastAt(text, Fence, j) by {
      assert text[j..j + 3] == Fence;
      forall k | j < k ensures !OccursAt(text, Fence, k) {
        if k + 3 <= |text| {
          assert text[k + 2] == post[k + 2 - j - 3];
        }
      }
    }
    assert text[i + 3..j] == body;
    CodeBlockByFences(text, i, j);
  }

  /** A fence that carries a language tag keeps the tag: the block recovered
      from "```sql" followed by a query on the next line starts with the
      line `sql`, and the classifier then takes it for prose. */
  lemma TaggedFenceKeepsTag(query: String)
    requires query != [] && IsTrimmed(query) && '`' !in query
    ensures ExtractCodeBlock("```sql\n" + query + "\n```") == Some("sql\n" + query)
    ensures IsTextAnswer("sql\n" + query)
  {
    var body := "sql\n" + query + "\n";
    assert "```sql\n" + query + "\n```" == [] + Fence + body + Fence + [];
    FenceRoundTrip([], body, []);
    assert Trim(body) == "sql\n" + query by {
      TrimSqlTag(query);
    }
    assert IsTextAnswer("sql\n" + query) by {
      SqlTagIsText(query);
    }
  }

  lemma TrimSqlTag(query: String)
    requires query != [] && IsTrimmed(query)
    ensures Trim("sql\n" + query + "\n") == "sql\n" + query
  {
    var b := "sql\n" + query + "\n";
    assert b[0] == 's' && 's' !in Whitespace;
    assert LStrip(b, Whitespace) == b;
    var c := "sql\n" + query;
    assert b == c + "\n";
    assert c[|c| - 1] == query[|query| - 1];
    assert b[..|b| - 1] == c;
    assert RStrip(b, Whitespace) == RStrip(c, Whitespace);
    assert c[|c| - 1] !in Whitespace;
  }

  lemma SqlTagIsText(query: String)
    ensures IsTextAnswer("sql\n" + query)
  {
    var m := "sql\n" + query;
    var lines := SplitLines(m);
    SqlTagFirstLine(query);
    SqlLineIsStatement();
    assert FirstStatementLine(lines) == Some("sql");
    IsTextAnswerByFirstLine(m);
  }

  /** The tag is the first line of the tagged text. */
  lemma SqlTagFirstLine(query: String)
    ensures var lines := SplitLines("sql\n" + query); lines != [] && lines[0] == "sql"
  {
    var m := "sql\n" + query;
    var l := "sql";
    var lines := SplitLines(m);
    assert Leads(m, l) by {
      assert m[..3] == l && m[3] == '\n';
    }
    SplitLinesLeads(m);
    var f := lines[0];
    assert IsLine(f) && Leads(m, f);
  }

  /** The bare tag is a line of text, not a comment. */
  lemma SqlLineIsStatement()
    ensures LStrip("sql", Whitespace) == "sql" && !IsCommentLine("sql")
  {
    var l := "sql";
    assert l[0] !in Whitespace;
    assert LStrip(l, Whitespace) == l;
    CommentIffLStrip(l);
  }

  // ---------------------------------------------------------------------------
  // extract_sql_with_preamble
  // ---------------------------------------------------------------------------

  /** `extract_sql_with_preamble(text)`: the stripped text after the first
      colon, when that text opens with SELECT or WITH in any case. */
  function ExtractAfterPreamble(text: String): (r: Option<String>)
    ensures r.Some? ==> IsTrimmed(r.value)
  {
    match Find(text, ":")
    case None => None
    case Some(p) =>
      var rest := LStrip(text[p + 1..], Whitespace);
      if BeginsWithKeyword(Upper(rest)) then Some(Trim(rest)) else None
  }

  /** After the first colon: the stripped rest when it opens with a keyword,
      and nothing otherwise. */
  lemma PreambleByColon(text: String, i: int)
    requires FirstColonAt(text, i)
    ensures ExtractAfterPreamble(text).Some? <==> BeginsWithKeyword(Upper(LStrip(text[i + 1..], Whitespace)))
    ensures ExtractAfterPreamble(text).Some? ==> ExtractAfterPreamble(text).value == Trim(text[i + 1..])
  {
    assert Find(text, ":") == Some(i) by {
      FindColon(text);
    }
    StripAfterLStrip(text[i + 1..], Whitespace);
  }

  /** Without a colon there is no preamble to skip. */
  lemma NoColonNoPreamble(text: String)
    requires ':' !in text
    ensures ExtractAfterPreamble(text) == None
  {
    FindColon(text);
  }

  /** `text.index(":")` finds the first colon, and fails only without one. */
  lemma FindColon(text: String)
    ensures Find(text, ":").None? <==> forall k :: 0 <= k < |text| ==> text[k] != ':'
    ensures Find(text, ":").Some? ==> FirstColonAt(text, Find(text, ":").value)
    ensures forall i, j :: FirstColonAt(text, i) && FirstColonAt(text, j) ==> i == j
  {
    forall k | 0 <= k < |text| ensures OccursAt(text, ":", k) <==> text[k] == ':' {
      OccursAtChar(text, ':', k);
    }
  }

  /** A query after a colon and any whitespace, with no colon before it, is
      recovered exactly. */
  lemma PreambleRoundTrip(pre: String, gap: String, sql: String)
    requires ':' !in pre && AllIn(gap, Whitespace)
    requires IsTrimmed(sql) && BeginsWithKeyword(Upper(sql))
    ensures ExtractAfterPreamble(pre + ":" + gap + sql) == Some(sql)
  {
    var text := pre + ":" + gap + sql;
    var i := |pre|;
    assert FirstColonAt(text, i) by {
      forall k | 0 <= k < i ensures text[k] != ':' {
        assert text[k] == pre[k];
      }
    }
    assert text[i + 1..] == gap + sql;
    KeywordInitial(sql);
    assert sql[0] !in Whitespace;
    LStripGap(gap, sql, Whitespace);
    StripAfterLStrip(gap + sql, Whitespace);
    StripTrimmed(sql, Whitespace);
    PreambleByColon(text, i);
  }

  /** What the preamble rule recovers is never taken for prose. */
  lemma PreambleIsQuery(text: String)
    ensures ExtractAfterPreamble(text).Some? ==> !IsTextAnswer(ExtractAfterPreamble(text).value)
  {
    var r := ExtractAfterPreamble(text);
    if r.Some? {
      FindColon(text);
      var p := Find(text, ":").value;
      var tail := text[p + 1..];
      PreambleByColon(text, p);
      assert BeginsWithKeyword(Upper(Trim(tail))) by {
        TrimKeepsKeyword(tail);
      }
      KeywordLedIsQuery(r.value);
    }
  }

  /** Trimming keeps a keyword that opens the text after its leading
      whitespace. */
  lemma TrimKeepsKeyword(x: String)
    requires BeginsWithKeyword(Upper(LStrip(x, Whitespace)))
    ensures BeginsWithKeyword(Upper(Trim(x)))
  {
    calc {
      BeginsWithKeyword(Upper(Trim(x)));
    == { UpperTrim(x); }
      BeginsWithKeyword(Trim(Upper(x)));
    == { KeywordIgnoresTrailing(Upper(x)); }
      BeginsWithKeyword(LStrip(Upper(x), Whitespace));
    == { UpperLStrip(x); }
      BeginsWithKeyword(Upper(LStrip(x, Whitespace)));
    }
  }

  /** Upper-casing commutes with trimming. */
  lemma UpperTrim(s: String)
    ensures Trim(Upper(s)) == Upper(Trim(s))
  {
    UpperLStrip(s);
    UpperRStrip(LStrip(s, Whitespace));
  }

  lemma {:induction false} UpperRStrip(s: String)
    ensures RStrip(Upper(s), Whitespace) == Upper(RStrip(s, Whitespace))
    decreases |s|
  {
    if s != [] {
      var u := Upper(s);
      var n := |s| - 1;
      UpperCharWhitespace(s[n]);
      assert u[n] == UpperChar(s[n]);
      assert u[..n] == Upper(s[..n]);
      UpperRStrip(s[..n]);
    }
  }

  // ---------------------------------------------------------------------------
  // The recovery step of fetch
  // ---------------------------------------------------------------------------

  /** Python's truth value of an optional string: present and not empty. */
  predicate Truthy(o: Option<String>) {
    o.Some? && o.value != []
  }

  /** The SQL `fetch` returns for a stripped response: a non-empty code
      block, else a non-empty query after a preamble, else the response. */
  function RecoverSql(response: String): (sql: String)
    ensures response != [] ==> sql != []
    ensures IsTrimmed(response) ==> IsTrimmed(sql)
  {
    var block := ExtractCodeBlock(response);
    var after := ExtractAfterPreamble(response);
    if Truthy(block) then block.value
    else if Truthy(after) then after.value
    else response
  }

  /** A response with neither a fence nor a colon is taken as it is, single
      backticks included. */
  lemma RecoverPlain(response: String)
    requires (forall i :: !OccursAt(response, Fence, i)) && ':' !in response
    ensures RecoverSql(response) == response
  {
    NoFenceNoBlock(response);
    NoColonNoPreamble(response);
  }

  /** The recovered SQL is a piece of the response. */
  lemma RecoverSqlIsSlice(response: String) returns (i: nat)
    ensures OccursAt(response, RecoverSql(response), i)
  {
    var block := ExtractCodeBlock(response);
    var after := ExtractAfterPreamble(response);
    if Truthy(block) {
      i := CodeBlockIsSlice(response);
    } else if Truthy(after) {
      i := PreambleIsSlice(response);
    } else {
      i := 0;
    }
  }

  lemma CodeBlockIsSlice(response: String) returns (i: nat)
    requires ExtractCodeBlock(response).Some?
    ensures OccursAt(response, ExtractCodeBlock(response).value, i)
  {
    var p1 := Find(response, Fence).value;
    var p2 := RFind(response, Fence).value;
    assert ExtractCodeBlock(response).value == Trim(response[p1 + 3..p2]);
    i := TrimSliceOccurs(response, p1 + 3, p2);
  }

  lemma PreambleIsSlice(response: String) returns (i: nat)
    requires ExtractAfterPreamble(response).Some?
    ensures OccursAt(response, ExtractAfterPreamble(response).value, i)
  {
    var p := Find(response, ":").value;
    assert FirstColonAt(response, p) by {
      FindColon(response);
    }
    PreambleByColon(response, p);
    i := TrimSuffixOccurs(response, p + 1);
  }

  /** A query on its own lines inside a code block, with no backtick in the
      remarks around it, is recovered exactly. */
  lemma RecoverFenced(pre: String, sql: String, post: String)
    requires '`' !in pre && '`' !in post
    requires sql != [] && IsTrimmed(sql)
    ensures RecoverSql(pre + Fence + "\n" + sql + "\n" + Fence + post) == sql
  {
    var body := "\n" + sql + "\n";
    assert pre + Fence + "\n" + sql + "\n" + Fence + post == pre + Fence + body + Fence + post;
    FenceRoundTrip(pre, body, post);
    TrimPadded(sql);
  }

  /** Line feeds around trimmed text are all that trimming removes. */
  lemma TrimPadded(sql: String)
    requires sql != [] && IsTrimmed(sql)
    ensures Trim("\n" + sql + "\n") == sql
  {
    var body := "\n" + sql + "\n";
    assert sql[0] !in Whitespace;
    assert LStrip(body, Whitespace) == sql + "\n" by {
      assert body == "\n" + (sql + "\n");
      LStripGap("\n", sql + "\n", Whitespace);
    }
    assert RStrip(sql + "\n", Whitespace) == sql by {
      assert (sql + "\n")[..|sql|] == sql;
    }
  }

  /** A query after the first colon and some whitespace, with no backtick
      anywhere, is recovered exactly. Nothing requires the text before the
      colon to be prose: a complete query with a colon inside a string
      literal followed by `with` or `select` is cut down to what follows
      that colon. */
  lemma RecoverAfterPreamble(pre: String, gap: String, sql: String)
    requires ':' !in pre && '`' !in pre && '`' !in sql && AllIn(gap, Whitespace)
    requires IsTrimmed(sql) && BeginsWithKeyword(Upper(sql))
    ensures RecoverSql(pre + ":" + gap + sql) == sql
  {
    var text := pre + ":" + gap + sql;
    PreambleRoundTrip(pre, gap, sql);
    KeywordInitial(sql);
    NoBacktickAround(pre, gap, sql);
    AbsentChar(text, Fence, '`');
    NoFenceNoBlock(text);
  }

  lemma NoBacktickAround(pre: String, gap: String, sql: String)
    requires '`' !in pre && '`' !in sql && AllIn(gap, Whitespace)
    ensures '`' !in pre + ":" + gap + sql
  {
    var text := pre + ":" + gap + sql;
    forall k | 0 <= k < |text| ensures text[k] != '`' {
      if k < |pre| {
        assert text[k] == pre[k];
      } else if k == |pre| {
        assert text[k] == ':';
      } else if k < |pre| + 1 + |gap| {
        assert text[k] == gap[k - |pre| - 1];
        assert gap[k - |pre| - 1] in Whitespace;
      } else {
        assert text[k] == sql[k - |pre| - 1 - |gap|];
      }
    }
  }
}
