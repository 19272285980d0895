/**
 * The conversation behind one user intent (`SQLPrompt` in ai4sqlite3): built
 * from the main template, extended with a correction turn pair after each
 * failed attempt, and asked for SQL through `fetch`.
 */
module Session {
  import opened Wrappers
  import opened Text
  import opened Lines
  import opened Layout
  import opened Render
  import opened Extractor

  const SchemaKey: String := "--SCHEMA--"
  const IntentKey: String := "--INTENT--"
  const ResponseKey: String := "--RESPONSE--"
  const ErrorKey: String := "--ERROR--"

  // ---------------------------------------------------------------------------
  // Templates
  // ---------------------------------------------------------------------------

  /** The fixed text of the template turns that are more than a lone
      placeholder: the system instructions, the user's request carrying the
      schema key, the assistant's acknowledgement, and the correction request
      carrying the error key. */
  datatype Wording = Wording(system: String, request: String, acknowledgement: String, correction: String)

  /** `MAIN_PROMPT`: instructions, the request with the schema, an
      acknowledgement, and the intent. */
  function MainTemplate(w: Wording): (t: Conversation)
    ensures Roles(t) == [System, User, Assistant, User]
    ensures t[3].content == IntentKey
  {
    [Turn(System, w.system), Turn(User, w.request), Turn(Assistant, w.acknowledgement), Turn(User, IntentKey)]
  }

  /** `REVISE_PROMPT`: the previous response played back, then the request to
      fix the error. */
  function ReviseTemplate(w: Wording): (t: Conversation)
    ensures Roles(t) == [Assistant, User]
    ensures t[0].content == ResponseKey
  {
    [Turn(Assistant, ResponseKey), Turn(User, w.correction)]
  }

  /** The text of ai4sqlite3's correction request around the error key, as
      written in its source. */
  const CorrectionLead: String := @"
            Revise your SQL to fix this error: "
  const CorrectionTail: String := @"

            Output format: one SQL query with no surrounding text, using only SQL
            syntax and functions supported by SQLite3.
            Do not apologize or add any other extraneous chatter.
        "

  /** The text of ai4sqlite3's schema request around the schema key. */
  const RequestLead: String := @"
            Assist me writing an SQL query for my SQLite3 database.
            I will input your responses directly into SQLite3, so I require each
            response to consist of one SQL query, with no surrounding text, using only
            syntax and functions supported by SQLite3.
            If a query is expected to yield multiple result rows, then set limit 25
            unless I clearly request otherwise.
            You may include short SQL inline comment lines starting with -- to give me
            brief hints, but only about tricky or unusual parts.
            You may use common table expressions if they make the SQL much easier for
            me to understand.
            Due to the risk of infinite loop, don't use a recursive CTE unless
            absolutely required to fulfill my intent.
            I only want to query my database; if my input seems to suggest adding,
            altering, overwriting, or deleting anything, then you must reject it.
            If you're confident my input is a general question rather than a specific
            database query, then do provide a brief text answer.

            My schema is:

            "
  const RequestTail: String := @"
        "

  /** The wording of ai4sqlite3's templates, as written in its source. */
  const SourceWording: Wording :=
    Wording(SourceSystem, SourceRequest, SourceAcknowledgement, SourceCorrection)

  /** ai4sqlite3's system message. */
  const SourceSystem: String :=
    @"
            You will assist the user in writing an SQL query for a specific SQLite3
            database schema.
            Your answers will be directly input to sqlite3_prepare_v2(), so must
            consist of SQL with no surrounding text, using only syntax and functions
            supported by SQLite3.
            If you cannot fulfill the user's intention for any reason, then provide a
            brief text explanation, without apology or other extraneous chatter.
            Importantly, your SQL must never add, overwrite, alter, or delete anything
            in the database, even if the user so demands.
        "

  /** ai4sqlite3's acknowledgement of the schema. */
  const SourceAcknowledgement: String :=
    @"
            Schema acknowledged. Please state the nature of your intended database
            query, using any mix of text and/or SQL.
        "

  /** ai4sqlite3's schema request, the schema key inside it. */
  const SourceRequest: String := RequestLead + SchemaKey + RequestTail

  /** ai4sqlite3's correction request, the error key inside it. */
  const SourceCorrection: String := CorrectionLead + ErrorKey + CorrectionTail

  /** The source's correction request carries the error key that `revise`
      replaces with SQLite's message. */
  lemma SourceCorrectionCarriesErrorKey()
    ensures OccursAt(SourceCorrection, ErrorKey, |CorrectionLead|)
  {
    OccursBetween(CorrectionLead, ErrorKey, CorrectionTail);
  }

  /** The substitutions `SQLPrompt.__init__` passes, schema first. */
  function MainSubs(schema: String, intent: String): Substitutions {
    [(SchemaKey, schema), (IntentKey, intent)]
  }

  /** The substitutions `revise` passes, the previous response first. */
  function ReviseSubs(response: String, error: String): Substitutions {
    [(ResponseKey, response), (ErrorKey, error)]
  }

  // ---------------------------------------------------------------------------
  // SQLPrompt
  // ---------------------------------------------------------------------------

  /** The state of a `SQLPrompt`: the messages so far and the last stripped
      reply, absent until the first `fetch`. */
  datatype SqlPrompt = SqlPrompt(messages: Conversation, response: Option<String>)

  /** `SQLPrompt(model, schema, intent)`: the main template rendered; the
      last turn is the intent exactly as the user typed it. */
  function NewPrompt(w: Wording, schema: String, intent: String): (p: SqlPrompt)
    ensures Roles(p.messages) == [System, User, Assistant, User]
    ensures p.messages[3].content == intent
    ensures p.response.None?
  {
    var messages := PreparePrompt(MainTemplate(w), MainSubs(schema, intent));
    assert messages[3].content == intent by {
      IntentTurn(schema, intent);
    }
    SqlPrompt(messages, None)
  }

  /** The intent turn renders to the intent itself, whatever the schema and
      the intent contain: the schema key cannot occur in the intent key, and
      nothing is substituted after the intent. */
  lemma IntentTurn(schema: String, intent: String)
    ensures RenderContent(IntentKey, MainSubs(schema, intent)) == intent
  {
    var subs := MainSubs(schema, intent);
    SameLengthOccurrence(IntentKey, SchemaKey);
    assert IsLine(IntentKey) && IsTrimmed(IntentKey);
    RenderLonePlaceholder(subs, 1);
    assert subs[2..] == [];
  }

  /** `fetch`, given the model's reply: the reply is stripped and kept as the
      response, the messages are left as they are, and the SQL is recovered
      from the stripped reply. */
  function Fetch(p: SqlPrompt, reply: String): (r: (SqlPrompt, String))
    ensures r.0.messages == p.messages
    ensures r.0.response == Some(Trim(reply))
    ensures IsTrimmed(r.1)
    ensures Trim(reply) != [] ==> r.1 != []
  {
    var response := Trim(reply);
    (p.(response := Some(response)), RecoverSql(response))
  }

  /** Every SQL `fetch` returns is a piece of the reply. */
  lemma FetchFromReply(p: SqlPrompt, reply: String) returns (i: nat)
    ensures OccursAt(reply, Fetch(p, reply).1, i)
  {
    var response := Trim(reply);
    var k := RecoverSqlIsSlice(response);
    var j := StripIsSlice(reply, Whitespace);
    OccursTrans(reply, response, RecoverSql(response), j, k);
    i := j + k;
    assert OccursAt(reply, RecoverSql(response), i);
  }

  /** The two turns `revise` appends: `REVISE_PROMPT` rendered with the
      response and the error message. The first plays the response back with
      any error key in it replaced by the message; the user speaks second. */
  function Correction(w: Wording, response: String, error: String): (c: Conversation)
    ensures |c| == 2
    ensures c[0] == Turn(Assistant, Replace(response, ErrorKey, error))
    ensures c[1].role == User
  {
    var added := PreparePrompt(ReviseTemplate(w), ReviseSubs(response, error));
    assert added[0].content == Replace(response, ErrorKey, error) by {
      ResponseTurn(response, error);
    }
    assert Roles(added)[1] == User;
    added
  }

  /** The correction request carries the error message: when the
      normalised request text has the error key and not the response key,
      the message occurs in the user turn `revise` appends. */
  lemma CorrectionCarriesError(w: Wording, response: String, error: String)
    requires Occurs(Normalize(w.correction), ErrorKey)
    requires forall i :: !OccursAt(Normalize(w.correction), ResponseKey, i)
    ensures Occurs(Correction(w, response, error)[1].content, error)
  {
    var subs := ReviseSubs(response, error);
    assert Correction(w, response, error)[1].content == Substitute(Normalize(w.correction), subs);
    RequestCarriesError(Normalize(w.correction), response, error);
  }

  /** Substituting into a request with the error key and no response key
      leaves the error message in it. */
  lemma RequestCarriesError(request: String, response: String, error: String)
    requires Occurs(request, ErrorKey)
    requires forall i :: !OccursAt(request, ResponseKey, i)
    ensures Occurs(Substitute(request, ReviseSubs(response, error)), error)
  {
    var subs := ReviseSubs(response, error);
    ReplaceAbsent(request, ResponseKey, response);
    assert Substitute(request, subs) == Substitute(request, subs[1..]);
    assert subs[1..][1..] == [];
    assert Substitute(request, subs[1..]) == Replace(request, ErrorKey, error);
    ReplaceProducesValue(request, ErrorKey, error);
  }

  /** `revise(error_msg)`, allowed once a reply has been fetched and while
      the user spoke last: the correction pair is appended and nothing before
      it changes. The played-back turn is the previous response with the
      error key replaced by the message, and the user again speaks last. */
  function Revise(w: Wording, p: SqlPrompt, error: String): (r: SqlPrompt)
    requires p.messages != [] && p.messages[|p.messages| - 1].role == User
    requires p.response.Some?
    ensures |r.messages| == |p.messages| + 2
    ensures r.messages[..|p.messages|] == p.messages
    ensures r.messages[|p.messages|] == Turn(Assistant, Replace(p.response.value, ErrorKey, error))
    ensures r.messages[|p.messages| + 1].role == User
    ensures r.response == p.response
  {
    var messages := p.messages + Correction(w, p.response.value, error);
    assert messages[..|p.messages|] == p.messages;
    p.(messages := messages)
  }

  /** The played-back turn: the response key is replaced by the response,
      then any error key inside the response by the error message. */
  lemma ResponseTurn(response: String, error: String)
    ensures RenderContent(ResponseKey, ReviseSubs(response, error)) == Replace(response, ErrorKey, error)
  {
    var subs := ReviseSubs(response, error);
    assert IsLine(ResponseKey) && IsTrimmed(ResponseKey) by {
      assert ResponseKey[0] == '-' && ResponseKey[11] == '-';
    }
    RenderLonePlaceholder(subs, 0);
    assert subs[0].0 == ResponseKey && subs[0].1 == response;
    var rest := subs[1..];
    assert rest == [(ErrorKey, error)];
    var replaced := Replace(response, ErrorKey, error);
    assert Substitute(response, rest) == Substitute(replaced, []);
    assert Substitute(replaced, []) == replaced;
  }

  /** A response without the error key is played back verbatim. */
  lemma ReviseReplaysResponse(w: Wording, p: SqlPrompt, error: String)
    requires p.messages != [] && p.messages[|p.messages| - 1].role == User
    requires p.response.Some? && forall i :: !OccursAt(p.response.value, ErrorKey, i)
    ensures Revise(w, p, error).messages[|p.messages|].content == p.response.value
  {
    ReplaceAbsent(p.response.value, ErrorKey, error);
  }

  /** Two revisions in a row append four turns, assistant and user twice;
      both play back the same response, each with its own error message. */
  lemma ReviseTwice(w: Wording, p: SqlPrompt, first: String, second: String)
    requires p.messages != [] && p.messages[|p.messages| - 1].role == User
    requires p.response.Some?
    ensures var once := Revise(w, p, first);
      && once.messages[|once.messages| - 1].role == User
      && var twice := Revise(w, once, second);
      && |twice.messages| == |p.messages| + 4
      && twice.messages[..|p.messages|] == p.messages
      && Roles(twice.messages[|p.messages|..]) == [Assistant, User, Assistant, User]
      && twice.messages[|p.messages|] == Turn(Assistant, Replace(p.response.value, ErrorKey, first))
      && twice.messages[|p.messages| + 2] == Turn(Assistant, Replace(p.response.value, ErrorKey, second))
  {
    var once := Revise(w, p, first);
    var twice := Revise(w, once, second);
    TwoPairs(p.messages, once.messages, twice.messages);
  }

  /** Appending an assistant-user pair twice. */
  lemma TwoPairs(before: Conversation, once: Conversation, twice: Conversation)
    requires |once| == |before| + 2 && once[..|before|] == before
    requires once[|before|].role == Assistant && once[|before| + 1].role == User
    requires |twice| == |once| + 2 && twice[..|once|] == once
    requires twice[|once|].role == Assistant && twice[|once| + 1].role == User
    ensures twice[..|before|] == before
    ensures twice[|before|] == once[|before|]
    ensures Roles(twice[|before|..]) == [Assistant, User, Assistant, User]
  {
    var n := |before|;
    assert twice[..n] == twice[..n + 2][..n];
    var tail := twice[n..];
    assert tail[0] == twice[..n + 2][n] == once[n];
    assert tail[1] == twice[..n + 2][n + 1] == once[n + 1];
    assert tail[2] == twice[n + 2] && tail[3] == twice[n + 3];
  }
}
