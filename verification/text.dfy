/**
 * Character-level string operations with the semantics of Python's `str`
 * methods (`strip`, `lstrip`, `rstrip`, `index`, `rindex`, `startswith`,
 * `upper`, `replace`), restricted to ASCII where Python consults Unicode
 * tables.
 */
module Text {
  import opened Wrappers

  type String = seq<char>

  /** The ASCII characters Python's `str.isspace` accepts: tab, line feed,
      vertical tab, form feed, carriage return, the four information
      separators and space. `str.strip()` with no argument removes these. */
  const Whitespace: set<char> :=
    {'\t', '\n', '\U{B}', '\U{C}', '\r', '\U{1C}', '\U{1D}', '\U{1E}', '\U{1F}', ' '}

  /** `s` is the prefix of `t`: `t.startswith(s)`. */
  predicate StartsWith(t: String, s: String) {
    |s| <= |t| && t[..|s|] == s
  }

  /** `p` occurs in `s` starting at position `i`. */
  predicate OccursAt(s: String, p: String, i: int) {
    0 <= i && i + |p| <= |s| && s[i..i + |p|] == p
  }

  ghost predicate Occurs(s: String, p: String) {
    exists i :: OccursAt(s, p, i)
  }

  /** Every character of `s` is in `chars`. */
  predicate AllIn(s: String, chars: set<char>) {
    forall i :: 0 <= i < |s| ==> s[i] in chars
  }

  // ---------------------------------------------------------------------------
  // strip / lstrip / rstrip
  // ---------------------------------------------------------------------------

  /** `s.lstrip(chars)`: drops the longest prefix made of characters in `chars`. */
  function LStrip(s: String, chars: set<char>): (r: String)
    ensures |r| <= |s|
    ensures forall i :: 0 <= i < |s| - |r| ==> s[i] in chars
    ensures r == [] || r[0] !in chars
  {
    if |s| > 0 && s[0] in chars then LStrip(s[1..], chars) else s
  }

  /** `s.rstrip(chars)`: drops the longest suffix made of characters in `chars`. */
  function RStrip(s: String, chars: set<char>): (r: String)
    ensures |r| <= |s|
    ensures forall i :: |r| <= i < |s| ==> s[i] in chars
    ensures r == [] || r[|r| - 1] !in chars
  {
    if |s| > 0 && s[|s| - 1] in chars then RStrip(s[..|s| - 1], chars) else s
  }

  /** `s.strip(chars)`: both ends. */
  function Strip(s: String, chars: set<char>): (r: String)
    ensures r == [] || (r[0] !in chars && r[|r| - 1] !in chars)
  {
    var l := LStrip(s, chars);
    RStripPrefix(l, chars);
    RStrip(l, chars)
  }

  /** What `lstrip` keeps is the end of its input. */
  lemma {:induction false} LStripSuffix(s: String, chars: set<char>)
    ensures LStrip(s, chars) == s[|s| - |LStrip(s, chars)|..]
    decreases |s|
  {
    if |s| > 0 && s[0] in chars {
      LStripSuffix(s[1..], chars);
    }
  }

  /** What `rstrip` keeps is the start of its input. */
  lemma {:induction false} RStripPrefix(s: String, chars: set<char>)
    ensures RStrip(s, chars) == s[..|RStrip(s, chars)|]
    decreases |s|
  {
    if |s| > 0 && s[|s| - 1] in chars {
      RStripPrefix(s[..|s| - 1], chars);
    }
  }

  /** What occurs in a slice occurs in the whole, further along. */
  lemma OccursInSlice(s: String, a: nat, b: nat, t: String, k: nat)
    requires a <= b <= |s| && OccursAt(s[a..b], t, k)
    ensures OccursAt(s, t, a + k)
  {
    forall j | 0 <= j < |t| ensures s[a + k..a + k + |t|][j] == t[j] {
      assert t[j] == s[a..b][k..k + |t|][j];
    }
    assert s[a + k..a + k + |t|] == t;
  }

  /** Occurrence is transitive: a piece of a piece is a piece. */
  lemma OccursTrans(s: String, t: String, u: String, i: nat, k: nat)
    requires OccursAt(s, t, i) && OccursAt(t, u, k)
    ensures OccursAt(s, u, i + k)
  {
    assert s[i..i + |t|] == t;
    OccursInSlice(s, i, i + |t|, u, k);
  }

  /** What occurs in a suffix occurs in the whole, further along. */
  lemma OccursInSuffix(s: String, a: nat, t: String, k: nat)
    requires a <= |s| && OccursAt(s[a..], t, k)
    ensures OccursAt(s, t, a + k)
  {
    forall j | 0 <= j < |t| ensures s[a + k..a + k + |t|][j] == t[j] {
      assert t[j] == s[a..][k..k + |t|][j];
    }
    assert s[a + k..a + k + |t|] == t;
  }

  /** What `strip` keeps is a slice of its input. */
  lemma StripIsSlice(s: String, chars: set<char>) returns (i: nat)
    ensures OccursAt(s, Strip(s, chars), i)
  {
    var l := LStrip(s, chars);
    var r := RStrip(l, chars);
    LStripSuffix(s, chars);
    RStripPrefix(l, chars);
    i := |s| - |l|;
    assert r == s[i..i + |r|];
  }

  /** Stripping twice, with any two sets, still leaves a slice. */
  lemma StripTwiceIsSlice(s: String, first: set<char>, second: set<char>) returns (i: nat)
    ensures OccursAt(s, Strip(Strip(s, first), second), i)
  {
    var once := Strip(s, first);
    var j := StripIsSlice(s, first);
    var k := StripIsSlice(once, second);
    OccursTrans(s, once, Strip(once, second), j, k);
    i := j + k;
  }

  /** Trimming a slice leaves a piece of the whole. */
  lemma TrimSliceOccurs(s: String, a: nat, b: nat) returns (i: nat)
    requires a <= b <= |s|
    ensures OccursAt(s, Trim(s[a..b]), i)
  {
    var k := StripIsSlice(s[a..b], Whitespace);
    OccursInSlice(s, a, b, Trim(s[a..b]), k);
    i := a + k;
  }

  /** Trimming a suffix leaves a piece of the whole. */
  lemma TrimSuffixOccurs(s: String, a: nat) returns (i: nat)
    requires a <= |s|
    ensures OccursAt(s, Trim(s[a..]), i)
  {
    var k := StripIsSlice(s[a..], Whitespace);
    OccursInSuffix(s, a, Trim(s[a..]), k);
    i := a + k;
  }

  /** Python's `s.strip()` with no argument. */
  function Trim(s: String): String {
    Strip(s, Whitespace)
  }

  /** `s` has nothing `Trim` would remove. */
  predicate IsTrimmed(s: String) {
    s == [] || (s[0] !in Whitespace && s[|s| - 1] !in Whitespace)
  }

  lemma StripTrimmed(s: String, chars: set<char>)
    requires s == [] || (s[0] !in chars && s[|s| - 1] !in chars)
    ensures Strip(s, chars) == s
  {
  }

  /** `lstrip` removes a leading gap of `chars` and nothing after it. */
  lemma {:induction false} LStripGap(gap: String, s: String, chars: set<char>)
    requires AllIn(gap, chars) && (s == [] || s[0] !in chars)
    ensures LStrip(gap + s, chars) == s
    decreases |gap|
  {
    if gap == [] {
      assert gap + s == s;
    } else {
      assert (gap + s)[1..] == gap[1..] + s;
      LStripGap(gap[1..], s, chars);
    }
  }

  /** Removing a prefix of `chars` first changes nothing about the strip. */
  lemma StripAfterLStrip(s: String, chars: set<char>)
    ensures Strip(LStrip(s, chars), chars) == Strip(s, chars)
  {
    var l := LStrip(s, chars);
    assert l == [] || l[0] !in chars;
    if l != [] {
      assert LStrip(l, chars) == l;
    }
  }

  // ---------------------------------------------------------------------------
  // index / rindex
  // ---------------------------------------------------------------------------

  /** `s.index(p)`: the first position where `p` occurs, `None` for Python's
      `ValueError`. */
  function Find(s: String, p: String): (r: Option<nat>)
    ensures r.Some? ==> OccursAt(s, p, r.value)
    ensures r.Some? ==> forall i :: 0 <= i < r.value ==> !OccursAt(s, p, i)
    ensures r.None? ==> forall i :: !OccursAt(s, p, i)
    decreases |s|
  {
    if |s| < |p| then None
    else if s[..|p|] == p then Some(0)
    else
      match Find(s[1..], p)
      case None =>
        assert forall i :: OccursAt(s, p, i) ==> i == 0 || OccursAt(s[1..], p, i - 1);
        None
      case Some(k) =>
        assert forall i :: 0 < i <= k ==> (OccursAt(s, p, i) <==> OccursAt(s[1..], p, i - 1));
        Some(k + 1)
  }

  /** `s.rindex(p)`: the last position where `p` occurs. */
  function RFind(s: String, p: String): (r: Option<nat>)
    ensures r.Some? ==> OccursAt(s, p, r.value)
    ensures r.Some? ==> forall i :: r.value < i ==> !OccursAt(s, p, i)
    ensures r.None? ==> forall i :: !OccursAt(s, p, i)
    decreases |s|
  {
    if |s| < |p| then None
    else if s[|s| - |p|..] == p then Some(|s| - |p|)
    else
      var r := RFind(s[..|s| - 1], p);
      assert forall i :: OccursAt(s, p, i) ==> i + |p| == |s| || OccursAt(s[..|s| - 1], p, i);
      assert forall i :: OccursAt(s[..|s| - 1], p, i) ==> OccursAt(s, p, i);
      r
  }

  /** A one-character pattern occurs exactly where that character is. */
  lemma OccursAtChar(s: String, c: char, i: int)
    ensures OccursAt(s, [c], i) <==> 0 <= i < |s| && s[i] == c
  {
    if 0 <= i < |s| {
      assert s[i..i + 1] == [s[i]];
    }
  }

  /** A character missing from `s` rules out every pattern that contains it. */
  lemma AbsentChar(s: String, p: String, c: char)
    requires c in p && c !in s
    ensures forall i :: !OccursAt(s, p, i)
  {
  }

  /** A pattern can occur in a string of its own length only as the whole string. */
  lemma SameLengthOccurrence(s: String, p: String)
    requires |s| == |p| && s != p
    ensures forall i :: !OccursAt(s, p, i)
  {
  }

  // ---------------------------------------------------------------------------
  // upper
  // ---------------------------------------------------------------------------

  /** `c.upper()` on ASCII letters; every other character is left alone. */
  function UpperChar(c: char): char {
    if 'a' <= c <= 'z' then (c as int - 32) as char else c
  }

  function Upper(s: String): (r: String)
    ensures |r| == |s|
  {
    seq(|s|, i requires 0 <= i < |s| => UpperChar(s[i]))
  }

  lemma UpperConcat(a: String, b: String)
    ensures Upper(a + b) == Upper(a) + Upper(b)
  {
  }

  /** `upper` leaves no lower-case ASCII letter, turns each into its
      capital, and keeps every other character. */
  lemma UpperCases(s: String)
    ensures forall i :: 0 <= i < |s| ==> !('a' <= Upper(s)[i] <= 'z')
    ensures forall i :: 0 <= i < |s| && 'a' <= s[i] <= 'z' ==> Upper(s)[i] as int == s[i] as int - 32
    ensures forall i :: 0 <= i < |s| && !('a' <= s[i] <= 'z') ==> Upper(s)[i] == s[i]
  {
  }

  /** Case mapping never turns whitespace into text or back, so it commutes
      with removing leading whitespace. */
  lemma {:induction false} UpperLStrip(s: String)
    ensures LStrip(Upper(s), Whitespace) == Upper(LStrip(s, Whitespace))
    decreases |s|
  {
    if |s| > 0 {
      var u := Upper(s);
      assert u[0] == UpperChar(s[0]);
      UpperCharWhitespace(s[0]);
      if s[0] in Whitespace {
        assert u[1..] == Upper(s[1..]);
        calc {
          LStrip(u, Whitespace);
          LStrip(u[1..], Whitespace);
          { UpperLStrip(s[1..]); }
          Upper(LStrip(s[1..], Whitespace));
        }
      }
    }
  }

  lemma UpperCharWhitespace(c: char)
    ensures UpperChar(c) in Whitespace <==> c in Whitespace
  {
  }

  // ---------------------------------------------------------------------------
  // replace
  // ---------------------------------------------------------------------------

  /** `s.replace(k, v)`: every non-overlapping occurrence of `k`, scanning left
      to right, becomes `v`; each search resumes right after the previous
      match. An empty `k` matches before every character and at the end, as in
      Python. */
  function Replace(s: String, k: String, v: String): String {
    if k == [] then InsertEverywhere(s, v) else ReplaceOccurrences(s, k, v)
  }

  /** `s.replace("", v)`: `v` before every character of `s` and at its end. */
  function InsertEverywhere(s: String, v: String): (r: String)
    ensures |r| == |s| + (|s| + 1) * |v|
  {
    if s == [] then v else v + [s[0]] + InsertEverywhere(s[1..], v)
  }

  /** Where the value goes: block `i` of the result, `|v| + 1` characters
      long, is `v` followed by the `i`-th character of `s`, and `v` ends the
      result. */
  lemma InsertEverywhereContents(s: String, v: String)
    ensures forall i :: 0 <= i < |s| ==> OccursAt(InsertEverywhere(s, v), v + [s[i]], i * (|v| + 1))
    ensures OccursAt(InsertEverywhere(s, v), v, |s| * (|v| + 1))
  {
    forall i | 0 <= i < |s| ensures OccursAt(InsertEverywhere(s, v), v + [s[i]], i * (|v| + 1)) {
      InsertedBlock(s, v, i);
    }
    InsertedLast(s, v);
  }

  /** The first block is `v` and the first character; the rest is the
      insertion into the tail, one block further on. */
  lemma InsertedHead(s: String, v: String)
    requires s != []
    ensures OccursAt(InsertEverywhere(s, v), v + [s[0]], 0)
    ensures OccursAt(InsertEverywhere(s, v), InsertEverywhere(s[1..], v), |v| + 1)
  {
    var r := InsertEverywhere(s, v);
    var head := v + [s[0]];
    var tail := InsertEverywhere(s[1..], v);
    assert r == head + tail;
    ConcatParts(head, tail);
  }

  /** Both halves of a concatenation occur in it, where they were put. */
  lemma ConcatParts(a: String, b: String)
    ensures OccursAt(a + b, a, 0) && OccursAt(a + b, b, |a|)
  {
    assert (a + b)[0..|a|] == a;
    assert (a + b)[|a|..|a| + |b|] == b;
  }

  lemma MulStep(i: int, w: int)
    ensures w + (i - 1) * w == i * w
  {
  }

  lemma {:induction false} InsertedBlock(s: String, v: String, i: nat)
    requires i < |s|
    ensures OccursAt(InsertEverywhere(s, v), v + [s[i]], i * (|v| + 1))
    decreases i
  {
    InsertedHead(s, v);
    if i > 0 {
      InsertedBlock(s[1..], v, i - 1);
      assert s[1..][i - 1] == s[i];
      OccursTrans(InsertEverywhere(s, v), InsertEverywhere(s[1..], v), v + [s[i]], |v| + 1, (i - 1) * (|v| + 1));
      MulStep(i, |v| + 1);
    }
  }

  lemma {:induction false} InsertedLast(s: String, v: String)
    ensures OccursAt(InsertEverywhere(s, v), v, |s| * (|v| + 1))
    decreases |s|
  {
    if s == [] {
      assert InsertEverywhere(s, v)[0..|v|] == v;
    } else {
      InsertedHead(s, v);
      InsertedLast(s[1..], v);
      OccursTrans(InsertEverywhere(s, v), InsertEverywhere(s[1..], v), v, |v| + 1, (|s| - 1) * (|v| + 1));
      MulStep(|s|, |v| + 1);
    }
  }

  function ReplaceOccurrences(s: String, k: String, v: String): String
    requires k != []
    decreases |s|
  {
    match Find(s, k)
    case None => s
    case Some(i) => s[..i] + v + ReplaceOccurrences(s[i + |k|..], k, v)
  }

  /** With no occurrence of `k`, `replace` returns its input. */
  lemma ReplaceAbsent(s: String, k: String, v: String)
    requires k != [] && forall i :: !OccursAt(s, k, i)
    ensures Replace(s, k, v) == s
  {
  }

  /** A string that is exactly the key becomes exactly the value. */
  lemma ReplaceWhole(k: String, v: String)
    requires k != []
    ensures Replace(k, k, v) == v
  {
    assert OccursAt(k, k, 0);
    assert Find(k, k) == Some(0);
    assert k[|k|..] == [];
    assert ReplaceOccurrences([], k, v) == [];
  }

  /** Replacing a key by itself changes nothing. */
  lemma {:induction false} ReplaceSelf(s: String, k: String)
    requires k != []
    ensures Replace(s, k, k) == s
    decreases |s|
  {
    match Find(s, k)
    case None =>
    case Some(i) =>
      var rest := s[i + |k|..];
      ReplaceSelf(rest, k);
      AroundOccurrence(s, k, i);
  }

  /** Whenever the key occurs, the value appears in the result. */
  lemma ReplaceProducesValue(s: String, k: String, v: String)
    requires k != [] && Occurs(s, k)
    ensures Occurs(Replace(s, k, v), v)
  {
    var i := Find(s, k).value;
    var rest := Replace(s[i + |k|..], k, v);
    assert Replace(s, k, v) == s[..i] + v + rest;
    OccursBetween(s[..i], v, rest);
  }

  /** A string is what comes before an occurrence, the occurrence, and what
      comes after it. */
  lemma AroundOccurrence(s: String, k: String, i: nat)
    requires OccursAt(s, k, i)
    ensures s == s[..i] + k + s[i + |k|..]
  {
    assert s == s[..i] + s[i..i + |k|] + s[i + |k|..];
  }

  /** The middle of a concatenation occurs right after its start. */
  lemma OccursBetween(a: String, v: String, b: String)
    ensures OccursAt(a + v + b, v, |a|)
  {
    assert (a + v + b)[|a|..|a| + |v|] == v;
  }
}
