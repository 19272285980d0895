# ai4sqlite3 and sqlite3ai in Dafny

A model of the conversational SQL generator in `ai4sqlite3` and of its
single-shot predecessor `sqlite3ai`. A user states an intent in plain
language. The tool renders a chat prompt from a fixed template holding the
database schema and the intent, and asks a language model for SQL. It
recovers the query from the reply, decides whether the reply is SQL or a
plain-language answer, and runs the query once the user confirms. In
`ai4sqlite3`, a SQLite error is fed back to the model for a revised query
until a revision budget runs out.

The model is pure and functional. Every outside party is a parameter:

- the model's replies, indexed by request number;
- the user's answers to the execute prompt;
- what SQLite does with a query at a given attempt.

| file | module | what it models |
|---|---|---|
| `wrappers.dfy` | `Wrappers` | `Option`, standing in for `None`, `ValueError` and falsy values |
| `text.dfy` | `Text` | `str.strip/lstrip/rstrip`, `index/rindex`, `upper`, `replace` |
| `lines.dfy` | `Lines` | `split("\n")`, `"\n".join`, `splitlines()` |
| `layout.dfy` | `Layout` | the per-turn clean-up in `prepare_prompt`: `strip("\n")`, `textwrap.dedent`, `strip()`, and the lone-line-feed `re.sub` |
| `render.dfy` | `Render` | `prepare_prompt`: turns, roles, placeholder substitution in dictionary order |
| `classifier.dfy` | `Classifier` | `is_text_answer` and a first-statement-line reference for it |
| `extractor.dfy` | `Extractor` | `extract_md_code_block`, `extract_sql_with_preamble`, and the recovery cascade in `SQLPrompt.fetch` |
| `session.dfy` | `Session` | `MAIN_PROMPT`, `REVISE_PROMPT`, `SQLPrompt.__init__/fetch/revise` |
| `oracles.dfy` | `Oracles` | the outside world: replies, confirmations, execution outcomes |
| `controller.dfy` | `Controller` | the inner retry loop of `main_repl`, for one intent |
| `singleshot.dfy` | `SingleShot` | `sqlite3ai`: its `MAIN_PROMPT`, `get_ai_sql`, and the per-intent loop of `main` |
| `schema.dfy` | `Schema` | the string half of `read_schema`, which is the same in both programs |

Design choices:

- **Retry loop.** `Controller.Retry` states the loop's control flow over an
  abstract plan of attempts and an abstract correction. `Controller.Loop`
  and `Controller.ServeIntent` plug in the real attempt (fetch, classify,
  confirm, execute) and the real `revise`. The properties are proved about
  the abstract loop and then carried over to the real one.
- **sqlite3ai session.** `SingleShot.Serve` is built the same way.
- **Templates.** The fixed wording of the templates is a parameter (`Session.Wording`,
  `SingleShot.ShotWording`). `Session.SourceWording` holds `ai4sqlite3`'s text as
  written, built from named pieces such as `Session.SourceCorrection`.
  Every property is proved for any wording. Only the shape of the
  template (roles, and turns that are a lone placeholder) is fixed.
- **`prepare_prompt`.** It is the same function in both programs
  (`ai4sqlite3/__init__.py:239-250` and `sqlite3ai/__init__.py:158-167`).
  `Render.PreparePrompt` models both.

Behaviour of the code that the proofs bring out:

- **Code fences.** The code-block rule takes the text between the *first* and the
  *last* triple backtick (`Extractor.CodeBlockByFences`). It does not require
  exactly two fences.
- **Language tags (ai4sqlite3).** A tag after the opening fence is kept. The usual
  "```sql" reply therefore comes back as `sql` on a line of its own followed by the
  query. `is_text_answer` then calls that a plain-language answer
  (`Extractor.TaggedFenceKeepsTag`).
- **Language tags (sqlite3ai).** `get_ai_sql` strips backticks only. It hands
  SQLite the tag as well (`SingleShot.TaggedFenceKeepsTag`).
- **Colon rule.** The recovery cascade is not idempotent on every query. A complete
  query with a colon inside a string literal, followed by `select` or `with`, is
  cut down to what follows that colon. It is the identity on replies with neither
  a triple-backtick fence nor a colon, single backticks allowed (`Extractor.RecoverPlain`).
- **Played-back reply.** `revise` substitutes the previous reply *before* the
  error message. An error key inside the reply is replaced too, so the
  played-back turn is the reply with `--ERROR--` replaced (`Session.ResponseTurn`),
  not always the reply verbatim.
- **Correction after the last attempt.** The loop appends a correction even after
  the last permitted attempt. With a budget of 1, a failing query still leaves two
  more turns (`Controller.OneRevisionBudget`).
- **Budget.** A budget of zero or less makes no request at all
  (`Controller.NoBudgetNoFetch`).
- **Warnings.** `ai4sqlite3` revises after `sqlite3.Warning`. `sqlite3ai` catches only
  `sqlite3.OperationalError`, so a warning ends its session
  (`SingleShot.OperationalErrorContinues`).

## Model

| member | source | states |
|---|---|---|
| Text.LStrip | ai4sqlite3/__init__.py:316 | everything `lstrip` drops is in the character set, and the first character kept is not |
| Text.RStrip | ai4sqlite3/__init__.py:309 | everything `rstrip` drops is in the set, and the last character kept is not |
| Text.Strip | ai4sqlite3/__init__.py:244-245 | neither end of the stripped text is in the set |
| Text.LStripSuffix | ai4sqlite3/__init__.py:316 | what `lstrip` keeps is the tail of its input |
| Text.RStripPrefix | ai4sqlite3/__init__.py:309 | what `rstrip` keeps is the head of its input |
| Text.StripIsSlice | ai4sqlite3/__init__.py:283 | the reply after `Text.Trim` (`strip()`) is a contiguous piece of the raw reply |
| Text.StripTwiceIsSlice | sqlite3ai/__init__.py:188 | stripping whitespace and then backticks still leaves a piece of the reply |
| Text.TrimSliceOccurs | ai4sqlite3/__init__.py:309 | the trimmed text between two positions is a piece of the whole text |
| Text.TrimSuffixOccurs | ai4sqlite3/__init__.py:316-318 | the trimmed text after a position is a piece of the whole text |
| Text.StripTrimmed | ai4sqlite3/__init__.py:283 | text whose two ends are outside the set is not changed by `strip` |
| Text.LStripGap | ai4sqlite3/__init__.py:316 | `lstrip` removes exactly a leading run of set characters, when the text after the run starts outside the set |
| Text.StripAfterLStrip | ai4sqlite3/__init__.py:316-318 | `strip` after `lstrip` equals `strip` alone |
| Text.Find | ai4sqlite3/__init__.py:305 | `index` gives the first occurrence, and `ValueError` (`None`) exactly when there is none |
| Text.RFind | ai4sqlite3/__init__.py:306 | `rindex` gives the last occurrence, and `None` exactly when there is none |
| Text.UpperLStrip | ai4sqlite3/__init__.py:316-317 | upper-casing commutes with removing leading whitespace |
| Text.UpperCases | ai4sqlite3/__init__.py:317 | `upper` leaves no lower-case ASCII letter: each becomes its capital, and every other character is kept |
| Text.InsertEverywhere | ai4sqlite3/__init__.py:248 | `replace` with an empty key makes the text longer by one copy of the value per character plus one |
| Text.InsertEverywhereContents | ai4sqlite3/__init__.py:248 | block `i` of the result is the value followed by character `i` of the input, and the value ends the result |
| Text.ReplaceAbsent | ai4sqlite3/__init__.py:248 | `Text.Replace` (`str.replace`) of a key that does not occur returns the text unchanged |
| Text.ReplaceWhole | ai4sqlite3/__init__.py:248 | text that is exactly the key becomes exactly the value |
| Text.ReplaceSelf | ai4sqlite3/__init__.py:248 | replacing a key by itself changes nothing |
| Text.ReplaceProducesValue | ai4sqlite3/__init__.py:248 | whenever the key occurs, the value occurs in the result |
| Lines.Split | ai4sqlite3/__init__.py:245 | the pieces between line feeds hold no line feed, and joining them with line feeds gives the text back |
| Lines.SplitJoin | ai4sqlite3/__init__.py:245 | lines without line feeds, joined by `Lines.JoinLines` (`"\n".join`) and split again, come back unchanged |
| Lines.SplitLines | ai4sqlite3/__init__.py:328-330 | `splitlines` has no lines for empty text, drops a final line feed and otherwise joins back to the text |
| Lines.SplitLinesJoin | ai4sqlite3/__init__.py:219-221 | lines whose last one is non-empty survive `"\n".join` followed by `splitlines` |
| Layout.IndentOf | ai4sqlite3/__init__.py:245 | the indent is the longest leading run of spaces and tabs |
| Layout.CommonPrefix | ai4sqlite3/__init__.py:245 | the result is the longest common prefix: every common prefix is a prefix of it |
| Layout.MarginFrom | ai4sqlite3/__init__.py:245 | the margin is the longest prefix common to the indents of all lines with text, and is absent only when no line has text |
| Layout.Dedent | ai4sqlite3/__init__.py:245 | line by line, blank lines become empty and the longest margin of spaces and tabs common to all lines with text comes off each of them |
| Layout.DedentLines | ai4sqlite3/__init__.py:245 | the same on split lines: one line out per line in, no line feed introduced, and the longest common margin removed |
| Layout.DedentsToUnique | ai4sqlite3/__init__.py:245 | the dedent contract fixes the result: two outputs that meet it for one input are equal |
| Layout.MarginFromIsLongest | ai4sqlite3/__init__.py:245 | the margin found from the lines' indents starts every line with text and is the longest such run |
| Layout.IndentCoversPrefix | ai4sqlite3/__init__.py:245 | any run of spaces and tabs that starts a line is a prefix of that line's indent |
| Layout.ClearBlanks | ai4sqlite3/__init__.py:245 | lines of only spaces and tabs become empty, and every other line is kept |
| Layout.RemoveMargin | ai4sqlite3/__init__.py:245 | every line with text is the margin followed by its output line |
| Layout.DedentFlatLine | ai4sqlite3/__init__.py:245 | a single line that starts with no indentation is left alone |
| Layout.CollapseNewlines | ai4sqlite3/__init__.py:246 | the length is kept, a line feed with no line feed on either side becomes a space, and every other character stays |
| Layout.Unwrap | ai4sqlite3/__init__.py:246 | the left-to-right scan agrees with that per-position rule, given the look-behind |
| Layout.CollapseIdempotent | ai4sqlite3/__init__.py:246 | collapsing twice is collapsing once |
| Layout.CollapseKeepsBreaks | ai4sqlite3/__init__.py:246 | two line feeds in a row (a paragraph break) survive |
| Layout.CollapseFlat | ai4sqlite3/__init__.py:246 | text without line feeds is unchanged |
| Layout.NormalizeFlat | ai4sqlite3/__init__.py:244-246 | a trimmed one-line turn, such as a lone placeholder, is unchanged by the clean-up |
| Layout.NormalizeShape | ai4sqlite3/__init__.py:244-246 | a turn after `Layout.Normalize` (the whole clean-up) has no whitespace at either end and no lone line feed |
| Layout.CollapseShape | ai4sqlite3/__init__.py:246 | collapsing trimmed text keeps it trimmed and leaves no lone line feed |
| Render.PreparePrompt | ai4sqlite3/__init__.py:239-250 | the prompt has one turn per template turn, with the roles in the same order; each turn's text is `Render.RenderContent`: clean-up, then `Render.Substitute` of every key in order |
| Render.PreparePromptConcat | ai4sqlite3/__init__.py:243-249 | turns are rendered independently, so rendering a concatenation concatenates the renderings |
| Render.SubstituteAbsent | ai4sqlite3/__init__.py:247-248 | text in which no key occurs comes through substitution unchanged |
| Render.SubstituteLonePlaceholder | ai4sqlite3/__init__.py:247-248 | text that is exactly the j-th key becomes the j-th value, rewritten only by later keys, when no earlier key occurs in it |
| Render.RenderLonePlaceholder | ai4sqlite3/__init__.py:244-249 | a turn that is a lone placeholder renders to its value; line feeds in the value survive because clean-up comes before substitution |
| Classifier.DropComments | ai4sqlite3/__init__.py:328-330 | no line left is a comment line, and there are no more lines than before |
| Classifier.DropCommentsContents | ai4sqlite3/__init__.py:328-330 | a line is kept exactly when it is an input line and not a comment |
| Classifier.DropCommentsAppend | ai4sqlite3/__init__.py:328-330 | dropping works line by line, so the kept lines stay in their order |
| Classifier.FirstStatementLine | ai4sqlite3/__init__.py:324-332 | the reference line is non-empty when present |
| Classifier.IsTextAnswerByFirstLine | ai4sqlite3/__init__.py:324-332 | `Classifier.IsTextAnswer` (`is_text_answer`) says SQL exactly when the first line that is neither blank nor a comment starts with SELECT or WITH, in any case, after indentation |
| Classifier.KeywordIgnoresTrailing | ai4sqlite3/__init__.py:331-332 | trailing whitespace never decides the keyword test |
| Classifier.PrefixSurvivesRStrip | ai4sqlite3/__init__.py:331 | a prefix ending in a non-space is a prefix of the right-stripped text exactly when it is one of the text |
| Classifier.LeadingLine | ai4sqlite3/__init__.py:328-331 | after leading whitespace, the joined non-comment text starts with the first statement line, or is empty when there is none |
| Classifier.KeywordOfLeadingLine | ai4sqlite3/__init__.py:331-332 | the keyword test on the text and on its leading line agree |
| Classifier.KeywordLedIsQuery | ai4sqlite3/__init__.py:331-332 | text that opens with a keyword is SQL whatever follows |
| Classifier.EmptyAndCommentOnlyAreText | ai4sqlite3/__init__.py:328-332 | an empty reply and a reply that is one comment line are plain-language answers |
| Classifier.ProseIsText | ai4sqlite3/__init__.py:324-332 | a one-line reply that opens with a letter other than S or W is a plain-language answer |
| Classifier.CommentedQueryIsSql | ai4sqlite3/__init__.py:328-332 | a line opening with SELECT or WITH in any case, after a comment line and indented or not, makes the reply SQL |
| Classifier.QueryByFirstLine | ai4sqlite3/__init__.py:324-332 | a reply whose first statement line opens with a keyword is SQL |
| Classifier.CommentIffLStrip | ai4sqlite3/__init__.py:329 | whether a line is a comment is decided by its text after indentation |
| Extractor.ExtractCodeBlock | ai4sqlite3/__init__.py:303-311 | a recovered block has no whitespace at either end |
| Extractor.CodeBlockByFences | ai4sqlite3/__init__.py:303-311 | there is a block exactly when the last fence starts after the first ends, and it is the stripped text between them |
| Extractor.NoFenceNoBlock | ai4sqlite3/__init__.py:304-311 | without a triple-backtick fence there is no block, whatever single backticks the text holds |
| Extractor.FenceRoundTrip | ai4sqlite3/__init__.py:303-309 | a body between two fences, with no backtick outside them, comes back stripped |
| Extractor.TaggedFenceKeepsTag | ai4sqlite3/__init__.py:305-309 | a "```sql" fence yields the tag line plus the query, and the classifier calls that text |
| Extractor.ExtractAfterPreamble | ai4sqlite3/__init__.py:314-321 | a recovered query has no whitespace at either end |
| Extractor.PreambleByColon | ai4sqlite3/__init__.py:314-319 | there is a query exactly when the text after the first colon, left-stripped, opens with a keyword, and it is that text stripped |
| Extractor.NoColonNoPreamble | ai4sqlite3/__init__.py:316-321 | without a colon there is no preamble query |
| Extractor.FindColon | ai4sqlite3/__init__.py:316 | `index(":")` finds the unique first colon and fails only without one |
| Extractor.PreambleRoundTrip | ai4sqlite3/__init__.py:314-318 | a query after a colon-free preamble, a colon and whitespace comes back exactly |
| Extractor.PreambleIsQuery | ai4sqlite3/__init__.py:317-318 | what the preamble rule recovers is never classified as text |
| Extractor.TrimKeepsKeyword | ai4sqlite3/__init__.py:317-318 | stripping keeps a keyword that opens the left-stripped text |
| Extractor.UpperTrim | ai4sqlite3/__init__.py:331 | upper-casing commutes with stripping |
| Extractor.RecoverSql | ai4sqlite3/__init__.py:283-290 | `fetch` never turns a non-empty reply into empty SQL, and its SQL is stripped |
| Extractor.RecoverPlain | ai4sqlite3/__init__.py:286-290 | a reply with neither a fence nor a colon is returned as it is, single backticks included |
| Extractor.RecoverSqlIsSlice | ai4sqlite3/__init__.py:283-290 | the SQL `fetch` returns is a piece of the stripped reply |
| Extractor.CodeBlockIsSlice | ai4sqlite3/__init__.py:309 | a recovered block is a piece of the reply |
| Extractor.PreambleIsSlice | ai4sqlite3/__init__.py:316-318 | a recovered preamble query is a piece of the reply |
| Extractor.RecoverFenced | ai4sqlite3/__init__.py:283-287 | a query on its own lines inside a code block is recovered exactly |
| Extractor.RecoverAfterPreamble | ai4sqlite3/__init__.py:286-289 | a query after the first colon is recovered exactly when there is no backtick |
| Session.MainTemplate | ai4sqlite3/__init__.py:34-88 | the main template is system, user, assistant, user, and the last turn is the intent placeholder alone |
| Session.ReviseTemplate | ai4sqlite3/__init__.py:90-102 | the revise template is assistant then user, and the first turn is the response placeholder alone |
| Session.SourceCorrectionCarriesErrorKey | ai4sqlite3/__init__.py:90-102 | the correction request of `REVISE_PROMPT`, as written, carries the error key that `revise` replaces with SQLite's message |
| Session.NewPrompt | ai4sqlite3/__init__.py:269-277 | a new prompt is system, user, assistant, user, its last turn is the intent exactly as typed, and no reply is stored yet |
| Session.IntentTurn | ai4sqlite3/__init__.py:274-276 | the intent turn renders to the intent whatever the schema and the intent contain |
| Session.Fetch | ai4sqlite3/__init__.py:279-290 | `fetch` leaves the messages alone, stores the stripped reply, and returns stripped SQL that is non-empty for a non-empty reply |
| Session.FetchFromReply | ai4sqlite3/__init__.py:279-290 | the SQL `fetch` returns is a piece of the raw reply |
| Session.Correction | ai4sqlite3/__init__.py:298-300 | `revise` appends two turns: the assistant playing the response back, then the user |
| Session.CorrectionCarriesError | ai4sqlite3/__init__.py:298-300 | when the correction request text has the error key and no response key, the error message occurs in the appended user turn |
| Session.RequestCarriesError | ai4sqlite3/__init__.py:298-300 | substituting into such a request leaves the error message in it |
| Session.Revise | ai4sqlite3/__init__.py:292-300 | `revise` keeps every earlier turn, adds two, and leaves the user speaking last |
| Session.ResponseTurn | ai4sqlite3/__init__.py:298-300 | the played-back turn is the response with any error key in it replaced by the message |
| Session.ReviseReplaysResponse | ai4sqlite3/__init__.py:298-300 | a response without the error key is played back verbatim |
| Session.ReviseTwice | ai4sqlite3/__init__.py:292-300 | two revisions add four turns, assistant and user twice, each playing back the same response with its own message |
| Controller.FetchMatchesAttempt | ai4sqlite3/__init__.py:183 | the loop's attempt is what `fetch` stores and returns for that reply |
| Controller.AttemptAt | ai4sqlite3/__init__.py:183-194 | attempt `k` stores the `k`-th reply stripped, recovers SQL from it, classifies it, and runs it at attempt `k` only when it is not text and `--yes` or the user agreed |
| Controller.Stop | ai4sqlite3/__init__.py:184-208 | an unrevised attempt ends the loop in the way its outcome dictates |
| Controller.Retry | ai4sqlite3/__init__.py:172-208 | at most the remaining budget of fetches, none when it is not positive; two turns per revision; the earlier turns kept; the last reply stored |
| Controller.RetryPlaysBack | ai4sqlite3/__init__.py:200-205 | after the starting turns, the conversation holds the correction of each revised attempt, in order |
| Controller.RetryFollowsPlan | ai4sqlite3/__init__.py:172-208 | attempts are made in order; every one but the last was revised; the ending agrees with the last; the loop ends exhausted only with the budget spent |
| Controller.PlayedBackAlternates | ai4sqlite3/__init__.py:200-205 | where corrections are played back, assistant and user turns alternate, the assistant first |
| Controller.CorrectionCorrects | ai4sqlite3/__init__.py:298-300 | the real correction appends an assistant turn and then a user turn |
| Controller.ReviseAppendsCorrection | ai4sqlite3/__init__.py:292-300 | `revise` appends exactly the loop's correction |
| Controller.Loop | ai4sqlite3/__init__.py:172-208 | with the real attempts: at most max(0, budget) fetches, none when the budget is not positive, earlier turns kept |
| Controller.LoopFollowsWorld | ai4sqlite3/__init__.py:172-208 | the i-th attempt is made from the i-th reply; only the last may be unrevised; the loop ends exhausted only with the whole budget spent |
| Controller.LoopRunsOnlyConfirmedSql | ai4sqlite3/__init__.py:183-194 | a query runs exactly when it is not a text answer and `--yes` or the user agreed, and what runs is the SQL recovered from that attempt's reply |
| Controller.PlayedBackCorrections | ai4sqlite3/__init__.py:200-205 | turn 2i after the start plays back the i-th response with the i-th error message, and the user speaks next |
| Controller.LoopCorrections | ai4sqlite3/__init__.py:200-205 | the same for the real loop, from the prompt it started with |
| Controller.NoBudgetNoFetch | ai4sqlite3/__init__.py:172-175 | a budget of zero or less makes no request and leaves the prompt as it was |
| Controller.OneRevisionBudget | ai4sqlite3/__init__.py:172-208 | a budget of one makes exactly one fetch; the loop ends exhausted exactly when that query failed recoverably, with two turns more |
| Controller.RetryFixedOnSecondAttempt | ai4sqlite3/__init__.py:172-208 | a recoverable failure then a query that runs: exactly two attempts, the table shown, one correction pair |
| Controller.FixedOnSecondAttempt | ai4sqlite3/__init__.py:172-208 | the same for the real loop, with a budget of at least two |
| Controller.TransientErrorRecovers | ai4sqlite3/__init__.py:183-207 | the same query failing once with an `OperationalError` and then running is run twice, and the table is shown |
| Controller.RetrySpendsBudget | ai4sqlite3/__init__.py:172-205 | when every attempt fails recoverably, every allowed fetch is made, each followed by a correction, and the loop ends exhausted |
| Controller.FailingQueryRevised | ai4sqlite3/__init__.py:184-204 | with `--yes`, SQL that is not text and fails recoverably is fed back |
| Controller.AlwaysFailingSpendsBudget | ai4sqlite3/__init__.py:172-205 | with `--yes` and every query failing recoverably, the loop makes max(0, budget) fetches and ends exhausted |
| Controller.ServeIntent | ai4sqlite3/__init__.py:167-208 | the four opening turns of `SQLPrompt` stay in place with the intent last among them, and each revision adds two turns |
| Controller.LoopRolesAlternate | ai4sqlite3/__init__.py:172-208 | from a system, user, assistant, user opening, the system speaks first and then user and assistant alternate, the user first |
| Controller.ServeRolesAlternate | ai4sqlite3/__init__.py:167-208 | in the whole conversation of an intent, the system speaks first and then user and assistant alternate; every request goes out after a user turn |
| SingleShot.ShotTemplate | sqlite3ai/__init__.py:33-61 | the template is system, assistant, user, and the last turn is the intent placeholder alone |
| SingleShot.ShotPrompt | sqlite3ai/__init__.py:182-186 | the prompt is three turns, system, assistant, user, and the last is the intent exactly as typed |
| SingleShot.GetAiSql | sqlite3ai/__init__.py:188 | the SQL neither starts nor ends with a backtick |
| SingleShot.ShotAt | sqlite3ai/__init__.py:111-126 | the shot for intent `k` uses the `k`-th reply through `get_ai_sql`, and runs it only when `--yes` or the user agreed |
| SingleShot.GetAiSqlKeepsPlainReply | sqlite3ai/__init__.py:188 | a reply whose trimmed ends are not backticks is used trimmed and otherwise unchanged |
| SingleShot.GetAiSqlFromReply | sqlite3ai/__init__.py:188 | the SQL is a piece of the reply |
| SingleShot.FencedReply | sqlite3ai/__init__.py:188 | a fenced reply with whitespace around the fences yields exactly what lies between them |
| SingleShot.TaggedFenceKeepsTag | sqlite3ai/__init__.py:188 | a "```sql" reply yields the tag `sql`, the query and a final line feed |
| SingleShot.Serve | sqlite3ai/__init__.py:105-132 | at most one shot per intent, exactly one each unless an execution escapes, and at least one while intents remain |
| SingleShot.ServeFollowsPlan | sqlite3ai/__init__.py:105-132 | the shots are the planned ones in order; only the last may escape, and it does exactly when the session crashes |
| SingleShot.ServePlanned | sqlite3ai/__init__.py:107-111 | the i-th shot served is the planned one |
| SingleShot.ServeEscapesLast | sqlite3ai/__init__.py:108-128 | only the last shot may escape, exactly when the session crashes |
| SingleShot.SingleShotSession | sqlite3ai/__init__.py:105-132 | never more shots than intents, and all intents served at end of input |
| SingleShot.ServeByPosition | sqlite3ai/__init__.py:107-111 | the i-th shot is made from the i-th intent |
| SingleShot.SessionOneShotPerIntent | sqlite3ai/__init__.py:107-128 | one generation per intent and no retry: the i-th shot comes from the i-th intent and the i-th reply |
| SingleShot.OperationalErrorContinues | sqlite3ai/__init__.py:127-128 | an `OperationalError` never ends the session, while a warning always does |
| Schema.Kept | ai4sqlite3/__init__.py:220 | every kept line is non-empty with no whitespace at either end |
| Schema.NormalizeSchema | ai4sqlite3/__init__.py:215-221 | the schema is empty exactly when no line of the statements, run together by `Schema.Joined`, has text |
| Schema.KeptAppend | ai4sqlite3/__init__.py:220 | keeping distributes over concatenation, so kept lines stay in source order |
| Schema.KeptContents | ai4sqlite3/__init__.py:220 | every line with text survives trimmed, and everything kept is some line trimmed |
| Schema.KeptTrimmed | ai4sqlite3/__init__.py:220 | lines that are already trimmed and non-empty are kept as they are |
| Schema.KeptAreLines | ai4sqlite3/__init__.py:220 | trimming introduces no line feed |
| Schema.SchemaLines | sqlite3ai/__init__.py:139-141 | reading the schema back with `splitlines` gives exactly the kept lines, none blank and none padded |
| Schema.SchemaIdempotent | ai4sqlite3/__init__.py:219-221 | normalising a normalised schema changes nothing |
| Schema.OneTrimmedLine | sqlite3ai/__init__.py:139-141 | a one-row schema that is already one trimmed line comes back unchanged |

## Left out

- Network, terminal and database I/O are not modelled: the OpenAI client, the
  `prompt_toolkit`/`input`/`getch` prompts, the spinner, `PrettyTable`,
  `print`, and `textwrap.fill`. Replies, confirmations and execution outcomes
  are the parameters in `Oracles.World`.
- `describe_schema` and `STARTUP_PROMPT` are left out: they only display a
  summary and never reach the loop.
- The SQL query in `read_schema` is left out: `Schema` starts from the
  statements it returns.
- Argument parsing and the database connection set-up in `main` and
  `main_repl` are left out. So are the outer `while True` of
  `main_repl`, `user_intent` and `prompt_intent`, whose loop only re-asks
  until the input is non-empty. The intent is a parameter (`Controller.ServeIntent`)
  or a sequence of intents (`SingleShot.SingleShotSession`).
- `KeyboardInterrupt` and `EOFError` are left out. Model-service errors are
  left out too: both programs let them escape.
- `RECOVERY_PROMPT` of `sqlite3ai` is not modelled: the program never uses it.
- Text.Trim: `str.strip()`, `str.isspace` and `str.splitlines` are modelled for
  ASCII characters only. Whitespace is characters 9-13 and 28-32, and the
  line feed is the only line boundary. Unicode spaces and separators are not
  modelled.
- Text.Upper: `str.upper` maps ASCII letters only; no non-ASCII case mapping is
  modelled.
- Layout.Dedent: the margin follows CPython's `textwrap.dedent` (the longest
  common run of spaces and tabs). The differences between Python versions in
  how whitespace-only lines are treated are not modelled.
- Session.Correction: the content of the appended user turn is not stated
  unconditionally. `Session.CorrectionCarriesError` states it for a request
  text that still holds the error key, and no response key, after clean-up.
  `Session.SourceCorrectionCarriesErrorKey` shows that the source's raw correction
  text holds the error key. That the key survives clean-up of that long
  literal is not proved.
- Session.NewPrompt: only the roles and the intent turn are stated. The
  rendered system and request turns, with the schema inside, are not.
- SingleShot.ShotPrompt: only the roles and the intent turn are stated, as for
  `Session.NewPrompt`.
- SingleShot.Serve: a shot records the intent, not the rendered prompt. The
  prompt for an intent is `SingleShot.ShotPrompt` and depends on nothing else.
- Oracles.World: replies, confirmations and execution outcomes are indexed
  by request number across one loop or one session. Execution is indexed by
  the query too. A model whose answer depends on the conversation is covered,
  and so is a database whose answer to one query changes between attempts:
  the index is the only input the parameter does not see.
- Integer widths play no part: the attempt counter and the budget are
  Python integers.
