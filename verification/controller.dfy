/**
 * The inner loop of ai4sqlite3's `main_repl`: for one intent, fetch SQL,
 * show a text answer or run the SQL once confirmed, and feed a recoverable
 * SQLite error back for a revised query until the revision budget is spent.
 *
 * The loop's control flow (`Retry`) is stated over what each attempt turned
 * out to be and over the turns a correction appends; `ServeIntent` plugs in
 * the real attempt (`AttemptAt`: fetch, classify, confirm, execute) and the
 * real correction (`Session.Correction`, what `revise` appends).
 */
module Controller {
  import opened Wrappers
  import opened Text
  import opened Render
  import opened Classifier
  import opened Extractor
  import opened Session
  import opened Oracles

  /** One pass of the loop: the stripped reply `fetch` stored, the SQL it
      returned, whether `is_text_answer` held for that SQL, and the execution
      outcome when the SQL was run. */
  datatype Attempt = Attempt(response: String, sql: String, textAnswer: bool, outcome: Option<Outcome>)

  /** The attempt's SQL ran into an error the loop hands to `revise`. */
  predicate Revised(a: Attempt) {
    a.outcome.Some? && Recoverable(a.outcome.value)
  }

  /** How a pass of the inner loop ends. */
  datatype Ending =
    | Answered   // the SQL was classified as a text answer and shown as text
    | Declined   // the user answered no to the confirmation
    | Displayed  // the query ran and its table was shown
    | Exhausted  // the revision budget ran out
    | Raised     // execution raised an exception the loop does not catch

  /** The loop's result: the conversation, the attempts in order, and why
      the loop stopped. */
  datatype Run = Run(prompt: SqlPrompt, attempts: seq<Attempt>, ending: Ending)

  /** The turns a correction appends, given the response and the error. */
  type Corrector = (String, String) -> Conversation

  /** A correction appends an assistant turn and then a user turn. */
  ghost predicate Corrects(correction: Corrector) {
    forall response, error ::
      && |correction(response, error)| == 2
      && correction(response, error)[0].role == Assistant
      && correction(response, error)[1].role == User
  }

  /** Attempts that were fed back for revision: the loop only goes on after
      a revised attempt, so these are all attempts but a last one that was
      not revised. */
  function Revisions(attempts: seq<Attempt>): nat {
    if attempts == [] then 0
    else if Revised(attempts[|attempts| - 1]) then |attempts|
    else |attempts| - 1
  }

  /** Fetches still allowed once `done` have been made. */
  function Remaining(maxRevisions: int, done: nat): nat {
    if maxRevisions > done then maxRevisions - done else 0
  }

  /** `revise` may be called: the conversation ends with a user turn. */
  predicate Open(p: SqlPrompt) {
    p.messages != [] && p.messages[|p.messages| - 1].role == User
  }

  /** The ending agrees with the last attempt. */
  predicate Concludes(attempts: seq<Attempt>, ending: Ending) {
    match ending
    case Exhausted => attempts == [] || Revised(attempts[|attempts| - 1])
    case Answered => attempts != [] && attempts[|attempts| - 1].textAnswer && attempts[|attempts| - 1].outcome.None?
    case Declined => attempts != [] && !attempts[|attempts| - 1].textAnswer && attempts[|attempts| - 1].outcome.None?
    case Displayed => attempts != [] && attempts[|attempts| - 1].outcome == Some(Rows)
    case Raised => attempts != [] && attempts[|attempts| - 1].outcome == Some(OtherError)
  }

  /** The attempts are the planned ones from attempt `from + 1` on. */
  ghost predicate FollowsPlan(attempts: seq<Attempt>, plan: nat -> Attempt, from: nat) {
    forall i :: 0 <= i < |attempts| ==> attempts[i] == plan(from + i + 1)
  }

  /** Every attempt but the last was revised. */
  predicate RevisedBeforeLast(attempts: seq<Attempt>) {
    forall i :: 0 <= i < |attempts| - 1 ==> Revised(attempts[i])
  }

  /** From position `n` on, `messages` holds the correction of each revised
      attempt, in order. */
  ghost predicate PlayedBack(messages: Conversation, n: nat, attempts: seq<Attempt>, correction: Corrector)
    requires Corrects(correction)
  {
    && n + 2 * Revisions(attempts) <= |messages|
    && forall i :: 0 <= i < Revisions(attempts) ==>
      && Revised(attempts[i])
      && messages[n + 2 * i] == correction(attempts[i].response, attempts[i].outcome.value.message)[0]
      && messages[n + 2 * i + 1] == correction(attempts[i].response, attempts[i].outcome.value.message)[1]
  }

  // ---------------------------------------------------------------------------
  // One attempt
  // ---------------------------------------------------------------------------

  /** Attempt `a` is what the loop does at attempt number `k`: it reads the
      `k`-th reply, classifies the SQL `fetch` returns, and runs it only when
      it is not a text answer and the user (or `--yes`) agreed. */
  predicate Attempted(world: World, yes: bool, k: nat, a: Attempt) {
    && a.response == Trim(world.reply(k))
    && a.sql == RecoverSql(a.response)
    && a.textAnswer == IsTextAnswer(a.sql)
    && (a.outcome.Some? <==> !a.textAnswer && (yes || world.confirm(k)))
    && (a.outcome.Some? ==> a.outcome.value == world.execute(k, a.sql))
  }

  /** Attempt number `k`: `ai_sql = sql_prompt.fetch()`, then
      `is_text_answer(ai_sql)`, then `yes or prompt_execute()`, then
      `cursor.execute(ai_sql)`. */
  function AttemptAt(world: World, yes: bool, k: nat): (a: Attempt)
    ensures Attempted(world, yes, k, a)
  {
    var response := Trim(world.reply(k));
    var sql := RecoverSql(response);
    var text := IsTextAnswer(sql);
    if text || !(yes || world.confirm(k)) then Attempt(response, sql, text, None)
    else Attempt(response, sql, text, Some(world.execute(k, sql)))
  }

  /** The attempt agrees with `SQLPrompt.fetch`: fetching the `k`-th reply
      stores the attempt's response and returns its SQL. */
  lemma FetchMatchesAttempt(p: SqlPrompt, world: World, yes: bool, k: nat)
    ensures var a := AttemptAt(world, yes, k);
      Fetch(p, world.reply(k)) == (p.(response := Some(a.response)), a.sql)
  {
  }

  /** How the loop ends after an attempt it does not revise. */
  function Stop(a: Attempt): (e: Ending)
    requires !Revised(a)
    ensures Concludes([a], e)
  {
    match a.outcome
    case None => if a.textAnswer then Answered else Declined
    case Some(Rows) => Displayed
    case Some(_) => Raised
  }

  // ---------------------------------------------------------------------------
  // The loop
  // ---------------------------------------------------------------------------

  /** The inner `while True` loop once `done` attempts have been made, with
      attempt `k` given by `plan(k)`: `attempts` is incremented before the
      bound check, so at most the remaining budget of fetches is made and
      none at all when the budget is not positive; the loop goes on only
      after a recoverable error, whose correction is appended even after the
      last permitted attempt; the conversation before the loop is kept.
      `RetryFollowsPlan` states which attempts are made and how the loop
      ends. */
  function Retry(plan: nat -> Attempt, correction: Corrector, maxRevisions: int, p: SqlPrompt, done: nat): (r: Run)
    requires Open(p) && Corrects(correction)
    ensures Open(r.prompt)
    ensures |r.attempts| <= Remaining(maxRevisions, done)
    ensures r.attempts == [] <==> Remaining(maxRevisions, done) == 0
    ensures |r.prompt.messages| == |p.messages| + 2 * Revisions(r.attempts)
    ensures r.prompt.messages[..|p.messages|] == p.messages
    ensures r.prompt.response == if r.attempts == [] then p.response else Some(r.attempts[|r.attempts| - 1].response)
    decreases Remaining(maxRevisions, done)
  {
    if done + 1 > maxRevisions then Run(p, [], Exhausted)
    else
      var k := done + 1;
      var a := plan(k);
      var fetched := p.(response := Some(a.response));
      if !Revised(a) then
        assert Revisions([a]) == 0;
        Run(fetched, [a], Stop(a))
      else
        var added := correction(a.response, a.outcome.value.message);
        var revised := fetched.(messages := fetched.messages + added);
        var rest := Retry(plan, correction, maxRevisions, revised, k);
        RevisedThenRest(p.messages, revised.messages, a, rest);
        Run(rest.prompt, [a] + rest.attempts, rest.ending)
  }

  /** A revised attempt followed by the rest of the loop: two more turns
      per revision, the earlier turns kept, and the last reply still the
      current response. */
  lemma RevisedThenRest(before: Conversation, revised: Conversation, a: Attempt, rest: Run)
    requires Revised(a)
    requires |revised| == |before| + 2 && revised[..|before|] == before
    requires |rest.prompt.messages| == |revised| + 2 * Revisions(rest.attempts)
    requires rest.prompt.messages[..|revised|] == revised
    ensures |rest.prompt.messages| == |before| + 2 * Revisions([a] + rest.attempts)
    ensures rest.prompt.messages[..|before|] == before
    ensures rest.attempts != [] ==> ([a] + rest.attempts)[|rest.attempts|] == rest.attempts[|rest.attempts| - 1]
  {
    assert rest.prompt.messages[..|before|] == rest.prompt.messages[..|revised|][..|before|];
    assert ([a] + rest.attempts)[|rest.attempts|] == if rest.attempts == [] then a else rest.attempts[|rest.attempts| - 1];
  }

  /** From the conversation the loop started with on, the turns hold the
      correction of each revised attempt, in order. */
  lemma {:induction false} RetryPlaysBack(plan: nat -> Attempt, correction: Corrector, maxRevisions: int, p: SqlPrompt, done: nat)
    requires Open(p) && Corrects(correction)
    ensures var r := Retry(plan, correction, maxRevisions, p, done);
      PlayedBack(r.prompt.messages, |p.messages|, r.attempts, correction)
    decreases Remaining(maxRevisions, done)
  {
    if done + 1 <= maxRevisions {
      var a := plan(done + 1);
      if Revised(a) {
        var fetched := p.(response := Some(a.response));
        var added := correction(a.response, a.outcome.value.message);
        var revised := fetched.(messages := fetched.messages + added);
        assert Open(revised) by {
          assert revised.messages[|revised.messages| - 1] == added[1];
        }
        RetryPlaysBack(plan, correction, maxRevisions, revised, done + 1);
        var rest := Retry(plan, correction, maxRevisions, revised, done + 1);
        RetryStep(p, revised, a, rest, correction);
        assert Retry(plan, correction, maxRevisions, p, done) == Run(rest.prompt, [a] + rest.attempts, rest.ending);
      } else {
        assert Revisions([a]) == 0;
      }
    }
  }

  /** The bookkeeping of one revised attempt followed by the rest of the
      loop: lengths, prefixes and correction positions shift by two turns. */
  lemma RetryStep(p: SqlPrompt, revised: SqlPrompt, a: Attempt, rest: Run, correction: Corrector)
    requires Revised(a) && Corrects(correction)
    requires revised.messages == p.messages + correction(a.response, a.outcome.value.message)
    requires |rest.prompt.messages| == |revised.messages| + 2 * Revisions(rest.attempts)
    requires rest.prompt.messages[..|revised.messages|] == revised.messages
    requires PlayedBack(rest.prompt.messages, |revised.messages|, rest.attempts, correction)
    ensures Revisions([a] + rest.attempts) == Revisions(rest.attempts) + 1
    ensures rest.prompt.messages[..|p.messages|] == p.messages
    ensures PlayedBack(rest.prompt.messages, |p.messages|, [a] + rest.attempts, correction)
  {
    var all := [a] + rest.attempts;
    var m := rest.prompt.messages;
    var n := |p.messages|;
    var added := correction(a.response, a.outcome.value.message);
    assert |revised.messages| == n + 2;
    assert m[..n] == revised.messages[..n];
    assert m[n] == revised.messages[n] == added[0];
    assert m[n + 1] == revised.messages[n + 1] == added[1];
    forall i | 1 <= i < Revisions(all)
      ensures && Revised(all[i])
              && m[n + 2 * i] == correction(all[i].response, all[i].outcome.value.message)[0]
              && m[n + 2 * i + 1] == correction(all[i].response, all[i].outcome.value.message)[1]
    {
      assert all[i] == rest.attempts[i - 1];
      assert n + 2 * i == |revised.messages| + 2 * (i - 1);
    }
  }

  /** The attempts are the planned ones, in order from attempt `done + 1`;
      every one but the last was revised; the ending agrees with the last
      attempt, and the budget is used up exactly when the loop ends
      exhausted. */
  lemma {:induction false} RetryFollowsPlan(plan: nat -> Attempt, correction: Corrector, maxRevisions: int, p: SqlPrompt, done: nat)
    requires Open(p) && Corrects(correction)
    ensures var r := Retry(plan, correction, maxRevisions, p, done);
      && Concludes(r.attempts, r.ending)
      && (r.ending == Exhausted ==> |r.attempts| == Remaining(maxRevisions, done))
      && RevisedBeforeLast(r.attempts)
      && FollowsPlan(r.attempts, plan, done)
    decreases Remaining(maxRevisions, done)
  {
    if done + 1 <= maxRevisions {
      var a := plan(done + 1);
      if Revised(a) {
        var fetched := p.(response := Some(a.response));
        var added := correction(a.response, a.outcome.value.message);
        var revised := fetched.(messages := fetched.messages + added);
        assert Open(revised) by {
          assert revised.messages[|revised.messages| - 1] == added[1];
        }
        RetryFollowsPlan(plan, correction, maxRevisions, revised, done + 1);
        var rest := Retry(plan, correction, maxRevisions, revised, done + 1);
        var r := Retry(plan, correction, maxRevisions, p, done);
        assert r.attempts == [a] + rest.attempts && r.ending == rest.ending;
        AttemptsStep(plan, done, a, rest.attempts, rest.ending);
        assert |r.attempts| == 1 + |rest.attempts|;
      } else {
        var r := Retry(plan, correction, maxRevisions, p, done);
        assert r.attempts == [a] && r.ending == Stop(a);
      }
    }
  }

  /** Putting a revised attempt in front of the rest of the loop's attempts
      keeps the ending, the order of attempts and the fact that only the last
      one may be unrevised. */
  lemma AttemptsStep(plan: nat -> Attempt, done: nat, a: Attempt, rest: seq<Attempt>, ending: Ending)
    requires Revised(a) && a == plan(done + 1)
    requires Concludes(rest, ending) && (rest == [] ==> ending == Exhausted)
    requires RevisedBeforeLast(rest) && FollowsPlan(rest, plan, done + 1)
    ensures Concludes([a] + rest, ending)
    ensures RevisedBeforeLast([a] + rest) && FollowsPlan([a] + rest, plan, done)
  {
    var all := [a] + rest;
    assert all[|all| - 1] == if rest == [] then a else rest[|rest| - 1];
    forall i | 1 <= i < |all| ensures all[i] == rest[i - 1] {
    }
  }

  /** Where the corrections are played back, assistant and user turns
      take turns, the assistant first. */
  lemma PlayedBackAlternates(m: Conversation, n: nat, attempts: seq<Attempt>, correction: Corrector)
    requires Corrects(correction)
    requires |m| == n + 2 * Revisions(attempts)
    requires PlayedBack(m, n, attempts, correction)
    ensures forall i :: n <= i < |m| ==> m[i].role == if (i - n) % 2 == 0 then Assistant else User
  {
    forall i | n <= i < |m| ensures m[i].role == if (i - n) % 2 == 0 then Assistant else User {
      var j := (i - n) / 2;
      var c := correction(attempts[j].response, attempts[j].outcome.value.message);
      if (i - n) % 2 == 0 {
        assert i == n + 2 * j;
        assert m[i] == c[0];
      } else {
        assert i == n + 2 * j + 1;
        assert m[i] == c[1];
      }
    }
  }

  // ---------------------------------------------------------------------------
  // One intent, end to end
  // ---------------------------------------------------------------------------

  /** What `revise` appends, as the loop's correction. */
  function CorrectionOf(w: Wording): Corrector {
    (response, error) => Correction(w, response, error)
  }

  lemma CorrectionCorrects(w: Wording)
    ensures Corrects(CorrectionOf(w))
  {
  }

  /** The real attempts, numbered from 1. */
  function PlanOf(world: World, yes: bool): nat -> Attempt {
    (k: nat) => AttemptAt(world, yes, k)
  }

  /** `revise` appends exactly what the loop's correction appends. */
  lemma ReviseAppendsCorrection(w: Wording, p: SqlPrompt, error: String)
    requires Open(p) && p.response.Some?
    ensures Revise(w, p, error) == p.(messages := p.messages + CorrectionOf(w)(p.response.value, error))
  {
  }

  /** The inner loop run from an open prompt with the real attempts and the
      real corrections: no more fetches than the budget allows and none when
      it is not positive; the conversation so far is kept and each revision
      adds two turns. */
  function Loop(w: Wording, world: World, yes: bool, maxRevisions: int, p: SqlPrompt): (r: Run)
    requires Open(p)
    ensures Open(r.prompt)
    ensures |r.attempts| <= if maxRevisions > 0 then maxRevisions else 0
    ensures r.attempts == [] <==> maxRevisions <= 0
    ensures |r.prompt.messages| == |p.messages| + 2 * Revisions(r.attempts)
    ensures r.prompt.messages[..|p.messages|] == p.messages
  {
    CorrectionCorrects(w);
    Retry(PlanOf(world, yes), CorrectionOf(w), maxRevisions, p, 0)
  }

  /** Each attempt of the loop is the real one for its number, the attempts
      before the last were all revised, the ending agrees with the last
      attempt, and the loop ends exhausted exactly when the whole budget was
      spent on revisions. */
  lemma LoopFollowsWorld(w: Wording, world: World, yes: bool, maxRevisions: int, p: SqlPrompt)
    requires Open(p)
    ensures var r := Loop(w, world, yes, maxRevisions, p);
      && Concludes(r.attempts, r.ending)
      && RevisedBeforeLast(r.attempts)
      && (r.ending == Exhausted ==> |r.attempts| == if maxRevisions > 0 then maxRevisions else 0)
      && forall i :: 0 <= i < |r.attempts| ==> r.attempts[i] == AttemptAt(world, yes, i + 1)
  {
    CorrectionCorrects(w);
    var plan := PlanOf(world, yes);
    RetryFollowsPlan(plan, CorrectionOf(w), maxRevisions, p, 0);
    var r := Retry(plan, CorrectionOf(w), maxRevisions, p, 0);
    assert Loop(w, world, yes, maxRevisions, p) == r;
    PlannedAttempts(r.attempts, world, yes);
  }

  /** Attempts that follow the real plan are the real attempts. */
  lemma PlannedAttempts(attempts: seq<Attempt>, world: World, yes: bool)
    requires FollowsPlan(attempts, PlanOf(world, yes), 0)
    ensures forall i :: 0 <= i < |attempts| ==> attempts[i] == AttemptAt(world, yes, i + 1)
  {
    forall i | 0 <= i < |attempts| ensures attempts[i] == AttemptAt(world, yes, i + 1) {
      assert attempts[i] == PlanOf(world, yes)(0 + i + 1);
    }
  }


  /** Text answers and queries the user did not confirm are never executed;
      every query that runs is the SQL recovered from that attempt's reply. */
  lemma LoopRunsOnlyConfirmedSql(w: Wording, world: World, yes: bool, maxRevisions: int, p: SqlPrompt)
    requires Open(p)
    ensures var r := Loop(w, world, yes, maxRevisions, p);
      forall i :: 0 <= i < |r.attempts| ==>
        && r.attempts[i].response == Trim(world.reply(i + 1))
        && r.attempts[i].sql == RecoverSql(r.attempts[i].response)
        && (r.attempts[i].outcome.Some? <==> !IsTextAnswer(r.attempts[i].sql) && (yes || world.confirm(i + 1)))
        && (r.attempts[i].outcome.Some? ==> r.attempts[i].outcome.value == world.execute(i + 1, r.attempts[i].sql))
  {
    LoopFollowsWorld(w, world, yes, maxRevisions, p);
  }

  /** Where the corrections are played back, turn `2i` is the `i`-th
      response with the error key replaced by the `i`-th error message, and
      the user speaks in the turn after it. */
  lemma PlayedBackCorrections(w: Wording, m: Conversation, n: nat, attempts: seq<Attempt>)
    requires Corrects(CorrectionOf(w))
    requires PlayedBack(m, n, attempts, CorrectionOf(w))
    ensures forall i :: 0 <= i < Revisions(attempts) ==>
      && Revised(attempts[i])
      && m[n + 2 * i] == Turn(Assistant, Replace(attempts[i].response, ErrorKey, attempts[i].outcome.value.message))
      && m[n + 2 * i + 1].role == User
  {
    forall i | 0 <= i < Revisions(attempts)
      ensures && Revised(attempts[i])
              && m[n + 2 * i] == Turn(Assistant, Replace(attempts[i].response, ErrorKey, attempts[i].outcome.value.message))
              && m[n + 2 * i + 1].role == User
    {
      var c := CorrectionOf(w)(attempts[i].response, attempts[i].outcome.value.message);
      assert c == Correction(w, attempts[i].response, attempts[i].outcome.value.message);
    }
  }

  /** After the conversation the loop started from, turn `2i` plays back the
      `i`-th response with the error key replaced by the `i`-th error
      message, and the user speaks in the turn after it. */
  lemma LoopCorrections(w: Wording, world: World, yes: bool, maxRevisions: int, p: SqlPrompt)
    requires Open(p)
    ensures var r := Loop(w, world, yes, maxRevisions, p);
      forall i :: 0 <= i < Revisions(r.attempts) ==>
        && Revised(r.attempts[i])
        && r.prompt.messages[|p.messages| + 2 * i] == Turn(Assistant, Replace(r.attempts[i].response, ErrorKey, r.attempts[i].outcome.value.message))
        && r.prompt.messages[|p.messages| + 2 * i + 1].role == User
  {
    CorrectionCorrects(w);
    RetryPlaysBack(PlanOf(world, yes), CorrectionOf(w), maxRevisions, p, 0);
    var r := Retry(PlanOf(world, yes), CorrectionOf(w), maxRevisions, p, 0);
    assert Loop(w, world, yes, maxRevisions, p) == r;
    PlayedBackCorrections(w, r.prompt.messages, |p.messages|, r.attempts);
  }

  /** With a budget of zero or less no reply is ever requested: the loop
      ends exhausted before the first fetch and the prompt is left as it
      was. */
  lemma NoBudgetNoFetch(w: Wording, world: World, yes: bool, maxRevisions: int, p: SqlPrompt)
    requires Open(p) && maxRevisions <= 0
    ensures var r := Loop(w, world, yes, maxRevisions, p);
      r.attempts == [] && r.ending == Exhausted && r.prompt == p
  {
    CorrectionCorrects(w);
    assert Loop(w, world, yes, maxRevisions, p) == Retry(PlanOf(world, yes), CorrectionOf(w), maxRevisions, p, 0);
  }

  /** With a budget of one there is exactly one fetch; when its query runs
      into a recoverable error, the correction is still appended and the
      loop gives up with two turns more than it started with. */
  lemma OneRevisionBudget(w: Wording, world: World, yes: bool, p: SqlPrompt)
    requires Open(p)
    ensures var r := Loop(w, world, yes, 1, p);
      && |r.attempts| == 1
      && (r.ending == Exhausted <==> Revised(r.attempts[0]))
      && (r.ending == Exhausted ==> |r.prompt.messages| == |p.messages| + 2)
  {
    CorrectionCorrects(w);
    var plan := PlanOf(world, yes);
    RetryFollowsPlan(plan, CorrectionOf(w), 1, p, 0);
    assert Loop(w, world, yes, 1, p) == Retry(plan, CorrectionOf(w), 1, p, 0);
  }

  /** A query that fails recoverably and a revision that runs: with a
      budget of at least two, the loop stops after exactly two fetches with
      the table shown, one correction pair added. */
  lemma {:induction false} RetryFixedOnSecondAttempt(plan: nat -> Attempt, correction: Corrector, maxRevisions: int, p: SqlPrompt)
    requires Open(p) && Corrects(correction) && maxRevisions >= 2
    requires Revised(plan(1)) && plan(2).outcome == Some(Rows)
    ensures var r := Retry(plan, correction, maxRevisions, p, 0);
      && r.attempts == [plan(1), plan(2)]
      && r.ending == Displayed
      && |r.prompt.messages| == |p.messages| + 2
  {
    var r := Retry(plan, correction, maxRevisions, p, 0);
    RetryFollowsPlan(plan, correction, maxRevisions, p, 0);
    assert r.attempts[0] == plan(1);
    if |r.attempts| == 1 {
      assert false;
    }
    assert r.attempts[1] == plan(2) && !Revised(r.attempts[1]);
    assert |r.attempts| == 2;
    assert r.attempts == [plan(1), plan(2)];
  }

  /** The loop with the real attempts, when the first query fails
      recoverably and the revised one runs: two fetches, the table shown,
      one correction pair in the conversation. */
  lemma FixedOnSecondAttempt(w: Wording, world: World, yes: bool, maxRevisions: int, p: SqlPrompt)
    requires Open(p) && maxRevisions >= 2
    requires Revised(AttemptAt(world, yes, 1)) && AttemptAt(world, yes, 2).outcome == Some(Rows)
    ensures var r := Loop(w, world, yes, maxRevisions, p);
      && |r.attempts| == 2
      && r.ending == Displayed
      && |r.prompt.messages| == |p.messages| + 2
  {
    CorrectionCorrects(w);
    var plan := PlanOf(world, yes);
    RetryFixedOnSecondAttempt(plan, CorrectionOf(w), maxRevisions, p);
    assert Loop(w, world, yes, maxRevisions, p) == Retry(plan, CorrectionOf(w), maxRevisions, p, 0);
  }

  /** A transient error: the model answers the correction with the same
      query, which failed the first time (a locked database, say) and runs
      the second. The loop runs that query twice and shows the table. */
  lemma TransientErrorRecovers(w: Wording, world: World, maxRevisions: int, p: SqlPrompt, message: String)
    requires Open(p) && maxRevisions >= 2
    requires world.reply(2) == world.reply(1)
    requires !IsTextAnswer(RecoverSql(Trim(world.reply(1))))
    requires world.execute(1, RecoverSql(Trim(world.reply(1)))) == OperationalError(message)
    requires world.execute(2, RecoverSql(Trim(world.reply(1)))) == Rows
    ensures var r := Loop(w, world, true, maxRevisions, p);
      && |r.attempts| == 2
      && r.attempts[0].sql == r.attempts[1].sql
      && r.attempts[0].outcome == Some(OperationalError(message))
      && r.ending == Displayed
  {
    var a1 := AttemptAt(world, true, 1);
    var a2 := AttemptAt(world, true, 2);
    assert Revised(a1) && a2.outcome == Some(Rows);
    FixedOnSecondAttempt(w, world, true, maxRevisions, p);
    LoopFollowsWorld(w, world, true, maxRevisions, p);
  }

  /** When every attempt's query runs into a recoverable error, the whole
      budget is spent: one fetch per allowed attempt, each followed by a
      correction, and the loop ends exhausted. */
  lemma RetrySpendsBudget(plan: nat -> Attempt, correction: Corrector, maxRevisions: int, p: SqlPrompt, done: nat)
    requires Open(p) && Corrects(correction)
    requires forall k: nat :: Revised(plan(k))
    ensures var r := Retry(plan, correction, maxRevisions, p, done);
      && |r.attempts| == Remaining(maxRevisions, done)
      && r.ending == Exhausted
      && |r.prompt.messages| == |p.messages| + 2 * |r.attempts|
  {
    var r := Retry(plan, correction, maxRevisions, p, done);
    RetryFollowsPlan(plan, correction, maxRevisions, p, done);
    if r.attempts != [] {
      var k := |r.attempts|;
      assert r.attempts[k - 1] == plan(done + (k - 1) + 1);
      assert Revisions(r.attempts) == k;
    }
  }

  /** With `--yes`, a reply whose SQL is not a text answer is run, so a
      query that fails recoverably is fed back. */
  lemma FailingQueryRevised(world: World, k: nat)
    requires !IsTextAnswer(RecoverSql(Trim(world.reply(k))))
    requires Recoverable(world.execute(k, RecoverSql(Trim(world.reply(k)))))
    ensures Revised(PlanOf(world, true)(k))
  {
  }

  /** When every query is run without asking and every one fails with a
      recoverable error, the whole budget is spent and the loop ends
      exhausted. */
  lemma AlwaysFailingSpendsBudget(w: Wording, world: World, maxRevisions: int, p: SqlPrompt)
    requires Open(p)
    requires forall k: nat :: !IsTextAnswer(RecoverSql(Trim(world.reply(k))))
    requires forall k: nat, q :: Recoverable(world.execute(k, q))
    ensures var r := Loop(w, world, true, maxRevisions, p);
      && |r.attempts| == (if maxRevisions > 0 then maxRevisions else 0)
      && r.ending == Exhausted
      && |r.prompt.messages| == |p.messages| + 2 * |r.attempts|
  {
    var plan := PlanOf(world, true);
    forall k: nat ensures Revised(plan(k)) {
      FailingQueryRevised(world, k);
    }
    CorrectionCorrects(w);
    RetrySpendsBudget(plan, CorrectionOf(w), maxRevisions, p, 0);
    assert Loop(w, world, true, maxRevisions, p) == Retry(plan, CorrectionOf(w), maxRevisions, p, 0);
  }

  /** `sql_prompt = SQLPrompt(...)` followed by the inner loop: the four
      opening turns stay in place with the intent last among them. */
  function ServeIntent(w: Wording, world: World, yes: bool, maxRevisions: int, schema: String, intent: String): (r: Run)
    ensures |r.prompt.messages| == 4 + 2 * Revisions(r.attempts)
    ensures r.prompt.messages[..4] == NewPrompt(w, schema, intent).messages
    ensures r.prompt.messages[3] == Turn(User, intent)
  {
    var p := NewPrompt(w, schema, intent);
    assert |p.messages| == 4 && p.messages[3].role == User by {
      assert |Roles(p.messages)| == 4 && Roles(p.messages)[3] == p.messages[3].role;
    }
    var r := Loop(w, world, yes, maxRevisions, p);
    assert r.prompt.messages[3] == r.prompt.messages[..4][3];
    r
  }

  /** After an opening system, user, assistant, user exchange followed by
      played-back corrections, the system speaks first and then user and
      assistant take turns, the user first. */
  lemma OpeningAlternates(m: Conversation, opening: Conversation, attempts: seq<Attempt>, correction: Corrector)
    requires Corrects(correction)
    requires Roles(opening) == [System, User, Assistant, User]
    requires |m| == 4 + 2 * Revisions(attempts) && m[..4] == opening
    requires PlayedBack(m, 4, attempts, correction)
    ensures m[0].role == System
    ensures forall i :: 1 <= i < |m| ==> m[i].role == if i % 2 == 1 then User else Assistant
  {
    var roles := Roles(opening);
    PlayedBackAlternates(m, 4, attempts, correction);
    assert m[0].role == System by {
      assert m[0] == m[..4][0];
    }
    forall i | 1 <= i < |m| ensures m[i].role == if i % 2 == 1 then User else Assistant {
      if i < 4 {
        assert m[i] == m[..4][i];
      } else {
        assert (i - 4) % 2 == i % 2;
      }
    }
  }

  /** From an opening system, user, assistant, user exchange, the loop's
      conversation has the system speak first and then user and assistant
      take turns, the user first. */
  lemma LoopRolesAlternate(w: Wording, world: World, yes: bool, maxRevisions: int, p: SqlPrompt)
    requires Roles(p.messages) == [System, User, Assistant, User] && Open(p)
    ensures var m := Loop(w, world, yes, maxRevisions, p).prompt.messages;
      && m[0].role == System
      && forall i :: 1 <= i < |m| ==> m[i].role == if i % 2 == 1 then User else Assistant
  {
    assert |p.messages| == 4 by {
      assert |Roles(p.messages)| == 4;
    }
    CorrectionCorrects(w);
    var r := Retry(PlanOf(world, yes), CorrectionOf(w), maxRevisions, p, 0);
    assert Loop(w, world, yes, maxRevisions, p) == r;
    RetryPlaysBack(PlanOf(world, yes), CorrectionOf(w), maxRevisions, p, 0);
    OpeningAlternates(r.prompt.messages, p.messages, r.attempts, CorrectionOf(w));
  }

  /** In the whole conversation of an intent, the system speaks first and
      then user and assistant take turns, the user first. */
  lemma ServeRolesAlternate(w: Wording, world: World, yes: bool, maxRevisions: int, schema: String, intent: String)
    ensures var m := ServeIntent(w, world, yes, maxRevisions, schema, intent).prompt.messages;
      && m[0].role == System
      && forall i :: 1 <= i < |m| ==> m[i].role == if i % 2 == 1 then User else Assistant
  {
    var p := NewPrompt(w, schema, intent);
    assert Open(p) by {
      assert |Roles(p.messages)| == 4 && Roles(p.messages)[3] == p.messages[3].role;
    }
    LoopRolesAlternate(w, world, yes, maxRevisions, p);
    assert ServeIntent(w, world, yes, maxRevisions, schema, intent) == Loop(w, world, yes, maxRevisions, p);
  }
}
