/**
 * Template rendering (`prepare_prompt`): a template is a list of role-tagged
 * turns with placeholder tokens; rendering copies it, normalises each turn's
 * content and then applies the substitutions in their insertion order.
 */
module Render {
  import opened Text
  import opened Lines
  import opened Layout

  datatype Role = System | User | Assistant

  /** One `{"role": ..., "content": ...}` message. */
  datatype Turn = Turn(role: Role, content: String)

  type Conversation = seq<Turn>

  /** The `subs` dictionary as its `items()` in insertion order. */
  type Substitutions = seq<(String, String)>

  function Roles(c: Conversation): (r: seq<Role>)
    ensures |r| == |c| && forall i :: 0 <= i < |c| ==> r[i] == c[i].role
  {
    seq(|c|, i requires 0 <= i < |c| => c[i].role)
  }

  /** `for k, v in subs.items(): content = content.replace(k, v)`: each key is
      replaced in the text the earlier replacements produced. */
  function Substitute(content: String, subs: Substitutions): String
    decreases |subs|
  {
    if subs == [] then content
    else Substitute(Replace(content, subs[0].0, subs[0].1), subs[1..])
  }

  /** The content one turn renders to. */
  function RenderContent(content: String, subs: Substitutions): String {
    Substitute(Normalize(content), subs)
  }

  /** `prepare_prompt(template, subs)`: a fresh list with one rendered turn per
      template turn, roles kept in order. */
  function PreparePrompt(template: Conversation, subs: Substitutions): (prompt: Conversation)
    ensures |prompt| == |template|
    ensures Roles(prompt) == Roles(template)
  {
    seq(|template|, i requires 0 <= i < |template| =>
      Turn(template[i].role, RenderContent(template[i].content, subs)))
  }

  /** Turns are rendered one by one: rendering a concatenation is
      concatenating the renderings. */
  lemma PreparePromptConcat(a: Conversation, b: Conversation, subs: Substitutions)
    ensures PreparePrompt(a + b, subs) == PreparePrompt(a, subs) + PreparePrompt(b, subs)
  {
    var l := PreparePrompt(a + b, subs);
    var r := PreparePrompt(a, subs) + PreparePrompt(b, subs);
    assert |l| == |r|;
    forall i | 0 <= i < |l| ensures l[i] == r[i] {
      if i < |a| {
        assert (a + b)[i] == a[i];
      } else {
        assert (a + b)[i] == b[i - |a|];
      }
    }
  }

  /** Text in which no key occurs comes through substitution unchanged. */
  lemma {:induction false} SubstituteAbsent(content: String, subs: Substitutions)
    requires forall j :: 0 <= j < |subs| ==> subs[j].0 != [] && forall i :: !OccursAt(content, subs[j].0, i)
    ensures Substitute(content, subs) == content
    decreases |subs|
  {
    if subs != [] {
      ReplaceAbsent(content, subs[0].0, subs[0].1);
      SubstituteAbsent(content, subs[1..]);
    }
  }

  /** Text that is exactly the `j`-th key becomes the `j`-th value, which the
      later keys then rewrite in turn, provided no earlier key occurs in it. */
  lemma {:induction false} SubstituteLonePlaceholder(subs: Substitutions, j: nat)
    requires j < |subs| && subs[j].0 != []
    requires forall e :: 0 <= e < j ==> subs[e].0 != [] && forall i :: !OccursAt(subs[j].0, subs[e].0, i)
    ensures Substitute(subs[j].0, subs) == Substitute(subs[j].1, subs[j + 1..])
    decreases j
  {
    if j == 0 {
      ReplaceWhole(subs[0].0, subs[0].1);
    } else {
      ReplaceAbsent(subs[j].0, subs[0].0, subs[0].1);
      var rest := subs[1..];
      assert rest[j - 1] == subs[j] && rest[j..] == subs[j + 1..];
      SubstituteLonePlaceholder(rest, j - 1);
    }
  }

  /** A template turn whose whole content is the `j`-th placeholder renders to
      the `j`-th value as rewritten by the later keys; content is normalised
      before substitution, so line feeds inside the value survive. */
  lemma RenderLonePlaceholder(subs: Substitutions, j: nat)
    requires j < |subs| && subs[j].0 != []
    requires IsLine(subs[j].0) && IsTrimmed(subs[j].0)
    requires forall e :: 0 <= e < j ==> subs[e].0 != [] && forall i :: !OccursAt(subs[j].0, subs[e].0, i)
    ensures RenderContent(subs[j].0, subs) == Substitute(subs[j].1, subs[j + 1..])
  {
    NormalizeFlat(subs[j].0);
    SubstituteLonePlaceholder(subs, j);
  }
}
