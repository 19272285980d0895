/**
 * sqlite3ai, the single-shot predecessor of ai4sqlite3: each intent gets a
 * fresh three-turn prompt and exactly one generation; the reply is stripped
 * of whitespace and then of backticks and run as is. Only
 * `sqlite3.OperationalError` is caught around an intent; any other exception
 * from executing the query ends the session.
 */
module SingleShot {
  import opened Wrappers
  import opened Text
  import opened Render
  import opened Session
  import opened Oracles

  // ---------------------------------------------------------------------------
  // The prompt
  // ---------------------------------------------------------------------------

  /** The fixed text of sqlite3ai's `MAIN_PROMPT`: the system instructions
      ending in the schema key, and the assistant's invitation. */
  datatype ShotWording = ShotWording(system: String, invitation: String)

  /** `MAIN_PROMPT`: instructions with the schema, an invitation, and the
      intent as a lone placeholder. */
  function ShotTemplate(w: ShotWording): (t: Conversation)
    ensures Roles(t) == [System, Assistant, User]
    ensures t[2].content == IntentKey
  {
    [Turn(System, w.system), Turn(Assistant, w.invitation), Turn(User, IntentKey)]
  }

  /** The prompt `get_ai_sql(schema, intent)` sends: three turns whose last
      is the intent exactly as typed; nothing from earlier intents is
      carried over. */
  function ShotPrompt(w: ShotWording, schema: String, intent: String): (c: Conversation)
    ensures Roles(c) == [System, Assistant, User]
    ensures c[2] == Turn(User, intent)
  {
    var c := PreparePrompt(ShotTemplate(w), MainSubs(schema, intent));
    assert c[2].content == intent by {
      IntentTurn(schema, intent);
    }
    assert |Roles(c)| == 3 && Roles(c)[2] == c[2].role;
    c
  }

  // ---------------------------------------------------------------------------
  // The reply
  // ---------------------------------------------------------------------------

  const Backtick: set<char> := {'`'}

  /** `response.choices[0].message.content.strip().strip("`")`: whitespace
      off both ends, then backticks off both ends. */
  function GetAiSql(reply: String): (sql: String)
    ensures sql == [] || (sql[0] != '`' && sql[|sql| - 1] != '`')
  {
    Strip(Trim(reply), Backtick)
  }

  /** A reply that, once trimmed, neither starts nor ends with a backtick is
      used trimmed and otherwise unchanged. */
  lemma GetAiSqlKeepsPlainReply(reply: String)
    requires var trimmed := Trim(reply); trimmed != [] && trimmed[0] != '`' && trimmed[|trimmed| - 1] != '`'
    ensures GetAiSql(reply) == Trim(reply)
  {
    StripTrimmed(Trim(reply), Backtick);
  }

  /** What `get_ai_sql` returns is a piece of the reply. */
  lemma GetAiSqlFromReply(reply: String) returns (i: nat)
    ensures OccursAt(reply, GetAiSql(reply), i)
  {
    i := StripTwiceIsSlice(reply, Whitespace, Backtick);
  }

  /** A reply fenced in triple backticks, with any whitespace around the
      fence, comes back as exactly what is between the fences; a language
      tag after the opening fence is kept. */
  lemma {:induction false} FencedReply(before: String, body: String, after: String)
    requires AllIn(before, Whitespace) && AllIn(after, Whitespace)
    requires body != [] && body[0] != '`' && body[|body| - 1] != '`'
    ensures GetAiSql(before + "```" + body + "```" + after) == body
  {
    var fenced := "```" + body + "```";
    assert before + "```" + body + "```" + after == before + fenced + after;
    assert fenced[0] == '`' && fenced[|fenced| - 1] == '`';
    StripBetween(before, fenced, after, Whitespace);
    StripBetween("```", body, "```", Backtick);
  }

  /** Stripping `chars` from `gap + s + tail` leaves `s` when both gaps are
      made of `chars` and `s` neither starts nor ends with one. */
  lemma StripBetween(gap: String, s: String, tail: String, chars: set<char>)
    requires AllIn(gap, chars) && AllIn(tail, chars)
    requires s != [] && s[0] !in chars && s[|s| - 1] !in chars
    ensures Strip(gap + s + tail, chars) == s
  {
    assert gap + s + tail == gap + (s + tail);
    LStripGap(gap, s + tail, chars);
    RStripGap(s, tail, chars);
  }

  /** `rstrip` removes a trailing gap of `chars` and nothing before it. */
  lemma {:induction false} RStripGap(s: String, tail: String, chars: set<char>)
    requires AllIn(tail, chars) && (s == [] || s[|s| - 1] !in chars)
    ensures RStrip(s + tail, chars) == s
    decreases |tail|
  {
    if tail == [] {
      assert s + tail == s;
    } else {
      var shorter := tail[..|tail| - 1];
      assert (s + tail)[..|s + tail| - 1] == s + shorter;
      RStripGap(s, shorter, chars);
    }
  }

  /** The fenced reply most chat models give: the tag `sql` survives, so the
      query sent to SQLite starts with the word `sql` and a line break. */
  lemma TaggedFenceKeepsTag(query: String)
    requires query != []
    ensures GetAiSql("```sql\n" + query + "\n```") == "sql\n" + query + "\n"
  {
    var body := "sql\n" + query + "\n";
    assert "```sql\n" + query + "\n```" == [] + "```" + body + "```" + [];
    FencedReply([], body, []);
  }

  // ---------------------------------------------------------------------------
  // The session
  // ---------------------------------------------------------------------------

  /** One intent: the intent typed (the prompt sent for it is
      `ShotPrompt(w, schema, intent)`), the SQL made of the single reply, and
      the outcome of running it when it was run. */
  datatype Shot = Shot(intent: String, sql: String, outcome: Option<Outcome>)

  /** `main` catches only `sqlite3.OperationalError` around an intent; a
      warning or any other exception from `cursor.execute` escapes the loop
      and ends the program. */
  predicate Fatal(o: Outcome) {
    o.Warning? || o.OtherError?
  }

  /** The session closes when the intents run out (end of input) or when an
      execution raises an exception `main` does not catch. */
  datatype Close = EndOfInput | Crashed

  datatype Transcript = Transcript(shots: seq<Shot>, close: Close)

  /** The shot escaped the loop. */
  predicate Escapes(s: Shot) {
    s.outcome.Some? && Fatal(s.outcome.value)
  }

  /** The `while True` loop of `main` once `done` of `count` intents have
      been served, the `k`-th shot given by `plan(k)`: one shot per intent,
      in order, until the intents run out or an execution escapes. */
  function Serve(plan: nat -> Shot, count: nat, done: nat): (t: Transcript)
    requires done <= count
    ensures |t.shots| <= count - done
    ensures t.close == EndOfInput ==> |t.shots| == count - done
    ensures done < count ==> t.shots != []
    decreases count - done
  {
    if done == count then Transcript([], EndOfInput)
    else
      var s := plan(done + 1);
      if Escapes(s) then Transcript([s], Crashed)
      else
        var rest := Serve(plan, count, done + 1);
        Transcript([s] + rest.shots, rest.close)
  }

  /** The shots are the planned ones in order; only the last may have
      escaped, and it did exactly when the session crashed. */
  lemma ServeFollowsPlan(plan: nat -> Shot, count: nat, done: nat)
    requires done <= count
    ensures var t := Serve(plan, count, done);
      && (forall i :: 0 <= i < |t.shots| ==> t.shots[i] == plan(done + i + 1))
      && (forall i :: 0 <= i < |t.shots| - 1 ==> !Escapes(t.shots[i]))
      && (t.close == Crashed <==> t.shots != [] && Escapes(t.shots[|t.shots| - 1]))
  {
    ServePlanned(plan, count, done);
    ServeEscapesLast(plan, count, done);
  }

  /** The `i`-th shot served is the planned one. */
  lemma {:induction false} ServePlanned(plan: nat -> Shot, count: nat, done: nat)
    requires done <= count
    ensures forall i :: 0 <= i < |Serve(plan, count, done).shots| ==> Serve(plan, count, done).shots[i] == plan(done + i + 1)
    decreases count - done
  {
    if done < count && !Escapes(plan(done + 1)) {
      ServePlanned(plan, count, done + 1);
      var rest := Serve(plan, count, done + 1);
      var all := [plan(done + 1)] + rest.shots;
      assert Serve(plan, count, done).shots == all;
      forall i | 0 <= i < |all| ensures all[i] == plan(done + i + 1) {
        if i > 0 {
          assert all[i] == rest.shots[i - 1];
        }
      }
    }
  }

  /** Only the last shot served may have escaped, and it did exactly when
      the session crashed. */
  lemma {:induction false} ServeEscapesLast(plan: nat -> Shot, count: nat, done: nat)
    requires done <= count
    ensures var t := Serve(plan, count, done);
      && (forall i :: 0 <= i < |t.shots| - 1 ==> !Escapes(t.shots[i]))
      && (t.close == Crashed <==> t.shots != [] && Escapes(t.shots[|t.shots| - 1]))
    decreases count - done
  {
    if done < count {
      var s := plan(done + 1);
      if !Escapes(s) {
        ServeEscapesLast(plan, count, done + 1);
        var rest := Serve(plan, count, done + 1);
        var all := [s] + rest.shots;
        assert Serve(plan, count, done) == Transcript(all, rest.close);
        forall i | 0 <= i < |all| - 1 ensures !Escapes(all[i]) {
          if i > 0 {
            assert all[i] == rest.shots[i - 1];
          }
        }
        assert all[|all| - 1] == if rest.shots == [] then s else rest.shots[|rest.shots| - 1];
      }
    }
  }

  /** The `k`-th intent: the single reply made into SQL, and the query run
      when `--yes` was given or the user agreed. */
  function ShotAt(world: World, yes: bool, intent: String, k: nat): (s: Shot)
    ensures s.intent == intent
    ensures s.sql == GetAiSql(world.reply(k))
    ensures s.outcome.Some? <==> yes || world.confirm(k)
    ensures s.outcome.Some? ==> s.outcome.value == world.execute(k, s.sql)
  {
    var sql := GetAiSql(world.reply(k));
    Shot(intent, sql, if yes || world.confirm(k) then Some(world.execute(k, sql)) else None)
  }

  /** The `k`-th intent typed, counted from 1. */
  function IntentAt(intents: seq<String>, k: nat): String {
    if 1 <= k <= |intents| then intents[k - 1] else []
  }

  function ShotMaker(world: World, yes: bool): (String, nat) -> Shot {
    (intent: String, k: nat) => ShotAt(world, yes, intent, k)
  }

  /** The plan that makes the `k`-th shot from the `k`-th intent. */
  function ByPosition(make: (String, nat) -> Shot, intents: seq<String>): nat -> Shot {
    (k: nat) => make(IntentAt(intents, k), k)
  }

  /** `main` of sqlite3ai fed the intents in order. */
  function SingleShotSession(world: World, yes: bool, intents: seq<String>): (t: Transcript)
    ensures |t.shots| <= |intents|
    ensures t.close == EndOfInput ==> |t.shots| == |intents|
  {
    Serve(ByPosition(ShotMaker(world, yes), intents), |intents|, 0)
  }

  /** Serving the intents by position: the `i`-th shot is made from the
      `i`-th intent; only the last may have escaped, and it did exactly when
      the session crashed. */
  lemma ServeByPosition(make: (String, nat) -> Shot, intents: seq<String>)
    ensures var t := Serve(ByPosition(make, intents), |intents|, 0);
      && (forall i :: 0 <= i < |t.shots| ==> t.shots[i] == make(intents[i], i + 1))
      && (forall i :: 0 <= i < |t.shots| - 1 ==> !Escapes(t.shots[i]))
      && (t.close == Crashed <==> t.shots != [] && Escapes(t.shots[|t.shots| - 1]))
  {
    var plan := ByPosition(make, intents);
    ServeFollowsPlan(plan, |intents|, 0);
    var t := Serve(plan, |intents|, 0);
    forall i | 0 <= i < |t.shots| ensures t.shots[i] == make(intents[i], i + 1) {
      assert IntentAt(intents, i + 1) == intents[i];
    }
  }

  /** One generation per intent and no retry: the `i`-th shot is made for
      the `i`-th intent from exactly one reply, the `i`-th; only an escaping
      execution stops the session early. */
  lemma SessionOneShotPerIntent(world: World, yes: bool, intents: seq<String>)
    ensures var t := SingleShotSession(world, yes, intents);
      && (forall i :: 0 <= i < |t.shots| ==> t.shots[i] == ShotAt(world, yes, intents[i], i + 1))
      && (forall i :: 0 <= i < |t.shots| - 1 ==> !Escapes(t.shots[i]))
      && (t.close == Crashed <==> t.shots != [] && Escapes(t.shots[|t.shots| - 1]))
  {
    ServeByPosition(ShotMaker(world, yes), intents);
  }

  /** An `OperationalError` is printed and the next intent is served: it
      never ends the session, while a warning always does. */
  lemma OperationalErrorContinues(plan: nat -> Shot, count: nat, i: nat)
    requires var t := Serve(plan, count, 0); i < |t.shots|
    ensures var t := Serve(plan, count, 0);
      && (t.shots[i].outcome.Some? && t.shots[i].outcome.value.OperationalError? ==> i + 1 < |t.shots| || (i + 1 == count && t.close == EndOfInput))
      && (t.shots[i].outcome.Some? && t.shots[i].outcome.value.Warning? ==> i + 1 == |t.shots| && t.close == Crashed)
  {
    ServeFollowsPlan(plan, count, 0);
  }
}
