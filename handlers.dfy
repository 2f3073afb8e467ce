/**
 * The two Slack event handlers of the bot, `handle_mention` and
 * `handle_message`, as functions from an event (and what the outside world
 * answers) to the sequence of Slack calls they make. The Slack client and
 * the database are not modelled: the timestamp Slack gives the posted
 * placeholder and the backend's outcome are parameters.
 */
module Handlers {
  import opened Wrappers
  import opened Text
  import opened Mentions
  import opened Formatter

  /** The event fields the handlers read; `None` means the key is absent. */
  datatype Event = Event(
    text: Option<string>,
    channel: string,
    ts: string,
    threadTs: Option<string>,
    botId: Option<string>,
    subtype: Option<string>)

  /** One call to the Slack API, in the order the handler makes it. */
  datatype Action =
    | React(channel: string, timestamp: string, name: string)
    | Say(channel: string, threadTs: string, text: string)
    | Post(channel: string, threadTs: string, text: string)
    | Update(channel: string, ts: string, text: string)
    | Upload(channel: string, threadTs: string, content: string, filename: string, title: string)

  /** The calls a handler made, and the text of an exception that escaped it, if any. */
  datatype Handling = Handling(actions: seq<Action>, raised: Option<string>)

  const Instruction: string := "Please include a question or query after mentioning me."

  /** Python truthiness of an optional string: present and non-empty. */
  predicate Truthy(o: Option<string>)
  {
    o.Some? && o.value != []
  }

  /** `event.get("text", "")`. */
  function TextOf(e: Event): string
  {
    match e.text
    case Some(t) => t
    case None => []
  }

  /** `event.get("thread_ts", ts)`: replies go to the thread, or start one under the message. */
  function ThreadOf(e: Event): string
  {
    match e.threadTs
    case Some(t) => t
    case None => e.ts
  }

  /**
   * The prompt of a mention: every token and the whitespace after it cut
   * out, then stripped. Text without a token gives the same prompt as a
   * plain message would.
   */
  function MentionPrompt(text: string): (p: string)
    ensures |p| <= |text|
    ensures p == [] <==> AllSpace(RemoveMentions(text))
    ensures !ContainsToken(text) ==> p == Strip(text)
  {
    RemoveMentionsShrinks(text);
    RemoveMentionsIdentityIff(text);
    Strip(RemoveMentions(text))
  }

  /** The prompt of a plain message, or `None` when the handler drops the event. */
  function MessagePrompt(e: Event): (p: Option<string>)
    ensures p.Some? <==>
      !Truthy(e.botId) && !Truthy(e.subtype) && !ContainsToken(TextOf(e)) && !AllSpace(TextOf(e))
    ensures p.Some? ==> p.value == Strip(TextOf(e))
  {
    if Truthy(e.botId) || Truthy(e.subtype) then None
    else if FindToken(TextOf(e)).Some? then None
    else
      var prompt := Strip(TextOf(e));
      if prompt == [] then None else Some(prompt)
  }

  function Placeholder(prompt: string): string
  {
    "Working on: _" + prompt + "_"
  }

  function Resolved(prompt: string, message: string): string
  {
    "*Query:* _" + prompt + "_\n\n" + message
  }

  /**
   * The sequence both handlers share once they have a prompt: post the
   * placeholder, run the query, edit the placeholder into the summary and
   * upload the CSV when there is one (`if csv_content:`). `ackTs` is the
   * timestamp Slack gives the placeholder; `outcome` is what
   * `query_claude` returned or raised.
   */
  function Respond(channel: string, thread: string, prompt: string, ackTs: string,
                   outcome: Result<Reply, string>): (h: Handling)
    ensures |h.actions| >= 1 && h.actions[0] == Post(channel, thread, Placeholder(prompt))
    ensures h.raised.Some? <==> outcome.Failure?
    ensures outcome.Failure? ==> |h.actions| == 1
    ensures outcome.Success? ==> |h.actions| >= 2 && h.actions[1] == Update(channel, ackTs, Resolved(prompt, outcome.value.message))
  {
    var post := Post(channel, thread, Placeholder(prompt));
    match outcome
    case Failure(description) => Handling([post], Some(description))
    case Success(reply) =>
      var update := Update(channel, ackTs, Resolved(prompt, reply.message));
      var upload :=
        if Truthy(reply.csv)
        then [Upload(channel, thread, reply.csv.value, "results.csv", "Query Results")]
        else [];
      Handling([post, update] + upload, None)
  }

  /**
   * `handle_mention`: react, then either ask for a question or answer it.
   * `run` says what the database does with a statement.
   */
  function HandleMention(e: Event, ackTs: string, run: string -> Backend): (h: Handling)
    ensures |h.actions| >= 2 && h.actions[0] == React(e.channel, e.ts, "eyes")
    ensures h.actions[1].Say? <==> MentionPrompt(TextOf(e)) == []
    ensures h.actions[1].Post? <==> MentionPrompt(TextOf(e)) != []
  {
    var react := React(e.channel, e.ts, "eyes");
    var prompt := MentionPrompt(TextOf(e));
    if prompt == [] then
      Handling([react, Say(e.channel, ThreadOf(e), Instruction)], None)
    else
      var h := Respond(e.channel, ThreadOf(e), prompt, ackTs, QueryFor(prompt, run));
      Handling([react] + h.actions, h.raised)
  }

  /** `handle_message`: drop bot, subtype, mention and blank messages; answer the rest. */
  function HandleMessage(e: Event, ackTs: string, run: string -> Backend): (h: Handling)
    ensures h.actions == [] <==> MessagePrompt(e).None?
    ensures h.actions == [] ==> h.raised.None?
  {
    match MessagePrompt(e)
    case None => Handling([], None)
    case Some(prompt) => Respond(e.channel, ThreadOf(e), prompt, ackTs, QueryFor(prompt, run))
  }

  // Properties of the handlers.

  /**
   * A mention whose prompt is empty gets the reaction and exactly one
   * instructional reply in its thread, and nothing is posted, edited or
   * uploaded, whatever the database would have done.
   */
  lemma EmptyMentionAsksForQuestion(e: Event, ackTs: string, run: string -> Backend)
    requires AllSpace(RemoveMentions(TextOf(e)))
    ensures HandleMention(e, ackTs, run) ==
      Handling([React(e.channel, e.ts, "eyes"), Say(e.channel, ThreadOf(e), Instruction)], None)
  {
  }

  /**
   * A plain message produces no call at all exactly when it comes from a
   * bot, carries a subtype, contains a mention token anywhere, or is blank.
   */
  lemma MessageIgnoredIff(e: Event, ackTs: string, run: string -> Backend)
    ensures HandleMessage(e, ackTs, run).actions == [] <==>
      Truthy(e.botId) || Truthy(e.subtype) || ContainsToken(TextOf(e)) || AllSpace(TextOf(e))
    ensures HandleMessage(e, ackTs, run).actions == [] ==> HandleMessage(e, ackTs, run).raised.None?
  {
  }

  /**
   * When a plain message is answered, its prompt is exactly its stripped
   * text, and its text holds no mention token (so the mention substitution
   * would have left it alone).
   */
  lemma MessagePromptIsStrippedText(e: Event)
    requires MessagePrompt(e).Some?
    ensures MessagePrompt(e) == Some(Strip(TextOf(e)))
    ensures !Truthy(e.botId) && !Truthy(e.subtype) && !ContainsToken(TextOf(e))
    ensures RemoveMentions(TextOf(e)) == TextOf(e)
  {
    RemoveMentionsIdentityIff(TextOf(e));
  }

  /**
   * The mention handler consults the database about one statement only,
   * `CLAUDE <prompt>;` for its prompt: two databases that agree on that
   * statement lead to the same calls and the same outcome.
   */
  lemma MentionRunsItsPrompt(e: Event, ackTs: string, run: string -> Backend, other: string -> Backend)
    requires run(Command(MentionPrompt(TextOf(e)))) == other(Command(MentionPrompt(TextOf(e))))
    ensures HandleMention(e, ackTs, run) == HandleMention(e, ackTs, other)
  {
  }

  /**
   * The message handler sends `CLAUDE <text>;` for the stripped text of
   * the message and nothing else to the database.
   */
  lemma MessageRunsItsText(e: Event, ackTs: string, run: string -> Backend, other: string -> Backend)
    requires run(Command(Strip(TextOf(e)))) == other(Command(Strip(TextOf(e))))
    ensures HandleMessage(e, ackTs, run) == HandleMessage(e, ackTs, other)
  {
  }

  /**
   * The resolved exchange once a reply exists: the placeholder posted in
   * the thread, its in-place edit into the query and the summary, and the
   * `results.csv` upload in the thread exactly when there is a CSV.
   */
  function Exchange(channel: string, thread: string, prompt: string, ackTs: string, r: Reply): seq<Action>
  {
    [Post(channel, thread, "Working on: _" + prompt + "_"),
     Update(channel, ackTs, "*Query:* _" + prompt + "_\n\n" + r.message)] +
    (if r.csv.Some? then [Upload(channel, thread, r.csv.value, "results.csv", "Query Results")] else [])
  }

  /**
   * For every statement outcome once connected, the handlers' shared
   * sequence is the resolved exchange for the formatter's reply: the upload
   * happens if and only if the formatter produced a CSV, and nothing
   * escapes.
   */
  lemma RespondProtocol(channel: string, thread: string, prompt: string, ackTs: string, e: Execution)
    ensures Respond(channel, thread, prompt, ackTs, QueryClaude(Connected(e))) ==
      Handling(Exchange(channel, thread, prompt, ackTs, Format(e)), None)
  {
    if e.Returned? && |e.rows| > 0 {
      CsvIsNonEmpty(e.columns, e.rows);
    }
  }

  /**
   * A failure while opening the connection is not turned into a reply:
   * the placeholder stays as posted and the exception leaves the handler.
   */
  lemma SetupFailureEscapes(channel: string, thread: string, prompt: string, ackTs: string, description: string)
    ensures Respond(channel, thread, prompt, ackTs, QueryClaude(SetupFailed(description))) ==
      Handling([Post(channel, thread, "Working on: _" + prompt + "_")], Some(description))
  {
  }

  /**
   * A reply call aimed where the source aims it: into the event's channel
   * and thread, or, for the edit, at the placeholder's timestamp.
   */
  predicate RepliesTo(a: Action, channel: string, thread: string, ackTs: string)
  {
    match a
    case React(_, _, _) => false
    case Say(c, t, _) => c == channel && t == thread
    case Post(c, t, _) => c == channel && t == thread
    case Update(c, ts, _) => c == channel && ts == ackTs
    case Upload(c, t, _, _, _) => c == channel && t == thread
  }

  predicate AllReplyTo(acts: seq<Action>, channel: string, thread: string, ackTs: string)
  {
    forall i :: 0 <= i < |acts| ==> RepliesTo(acts[i], channel, thread, ackTs)
  }

  lemma RespondRepliesTo(channel: string, thread: string, prompt: string, ackTs: string,
                         outcome: Result<Reply, string>)
    ensures AllReplyTo(Respond(channel, thread, prompt, ackTs, outcome).actions, channel, thread, ackTs)
  {
  }

  /**
   * The mention handler first reacts to the message itself; every later
   * call replies into the event's thread (the message's own timestamp when
   * it is not in a thread), and the only edit targets the placeholder.
   */
  lemma MentionRepliesInThread(e: Event, ackTs: string, run: string -> Backend)
    ensures HandleMention(e, ackTs, run).actions[0] == React(e.channel, e.ts, "eyes")
    ensures AllReplyTo(HandleMention(e, ackTs, run).actions[1..], e.channel, ThreadOf(e), ackTs)
    ensures e.threadTs.None? ==> AllReplyTo(HandleMention(e, ackTs, run).actions[1..], e.channel, e.ts, ackTs)
  {
    var prompt := MentionPrompt(TextOf(e));
    if prompt != [] {
      var h := Respond(e.channel, ThreadOf(e), prompt, ackTs, QueryFor(prompt, run));
      RespondRepliesTo(e.channel, ThreadOf(e), prompt, ackTs, QueryFor(prompt, run));
      assert HandleMention(e, ackTs, run).actions[1..] == h.actions;
    } else {
      assert HandleMention(e, ackTs, run).actions[1..] == [Say(e.channel, ThreadOf(e), Instruction)];
    }
  }

  /**
   * Every call the message handler makes replies into the event's thread,
   * or under the message itself when it is not in a thread.
   */
  lemma MessageRepliesInThread(e: Event, ackTs: string, run: string -> Backend)
    ensures AllReplyTo(HandleMessage(e, ackTs, run).actions, e.channel, ThreadOf(e), ackTs)
    ensures e.threadTs.None? ==> AllReplyTo(HandleMessage(e, ackTs, run).actions, e.channel, e.ts, ackTs)
  {
    if MessagePrompt(e).Some? {
      RespondRepliesTo(e.channel, ThreadOf(e), MessagePrompt(e).value, ackTs, QueryFor(MessagePrompt(e).value, run));
    }
  }

  /**
   * A mention at the front of the text, followed by whitespace and a
   * question that holds no mention token, leaves the stripped question as
   * the prompt.
   */
  lemma LeadingMentionPrompt(id: string, ws: string, question: string)
    requires |id| >= 1 && forall i :: 0 <= i < |id| ==> IsIdChar(id[i])
    requires AllSpace(ws)
    requires !ContainsToken(question)
    requires question == [] || !IsSpace(question[0])
    ensures MentionPrompt(['<', '@'] + id + ['>'] + ws + question) == Strip(question)
  {
    LeadingMentionRemoved(id, ws, question);
    RemoveMentionsKeepsTokenFree(question);
  }

  /** A mention of a user `id` in front of a question is answered as that question, stripped. */
  lemma MentionedQuestionAnswered(channel: string, ts: string, ackTs: string, id: string, question: string,
                                  run: string -> Backend)
    requires |id| >= 1 && forall i :: 0 <= i < |id| ==> IsIdChar(id[i])
    requires !ContainsToken(question)
    requires question != [] && !IsSpace(question[0])
    ensures HandleMention(Event(Some("<@" + id + "> " + question), channel, ts, None, None, None), ackTs, run) ==
      Handling([React(channel, ts, "eyes")] + Respond(channel, ts, Strip(question), ackTs, QueryFor(Strip(question), run)).actions,
               Respond(channel, ts, Strip(question), ackTs, QueryFor(Strip(question), run)).raised)
  {
    assert "<@" + id + "> " + question == ['<', '@'] + id + ['>'] + " " + question;
    LeadingMentionPrompt(id, " ", question);
  }

  /** With a reply that carries a CSV, the placeholder is posted, edited and followed by the upload. */
  lemma RespondWithCsv(channel: string, thread: string, prompt: string, ackTs: string, message: string, csv: string)
    requires csv != []
    ensures Respond(channel, thread, prompt, ackTs, Success(Reply(message, Some(csv)))) ==
      Handling([Post(channel, thread, Placeholder(prompt)), Update(channel, ackTs, Resolved(prompt, message)),
        Upload(channel, thread, csv, "results.csv", "Query Results")], None)
  {
  }

  /** A mention whose statement is answered with a CSV: reaction, placeholder, its edit, and the upload. */
  lemma MentionAnsweredWithCsv(e: Event, ackTs: string, run: string -> Backend, message: string, csv: string)
    requires MentionPrompt(TextOf(e)) != []
    requires QueryFor(MentionPrompt(TextOf(e)), run) == Success(Reply(message, Some(csv)))
    requires csv != []
    ensures HandleMention(e, ackTs, run) ==
      Handling([
        React(e.channel, e.ts, "eyes"),
        Post(e.channel, ThreadOf(e), Placeholder(MentionPrompt(TextOf(e)))),
        Update(e.channel, ackTs, Resolved(MentionPrompt(TextOf(e)), message)),
        Upload(e.channel, ThreadOf(e), csv, "results.csv", "Query Results")], None)
  {
    RespondWithCsv(e.channel, ThreadOf(e), MentionPrompt(TextOf(e)), ackTs, message, csv);
  }

  /** The statement for a prompt returning two rows of two columns is answered with the summary and the CSV. */
  lemma TwoByTwoAnswer(prompt: string, run: string -> Backend, columns: seq<string>, rows: seq<Row>)
    requires run(Command(prompt)) == Connected(Returned(columns, rows))
    requires |columns| == 2 && |rows| == 2
    ensures QueryFor(prompt, run) == Success(Reply("Returned 2 row(s), 2 column(s)", Some(CsvText(columns, rows))))
    ensures CsvText(columns, rows) != []
  {
    TwoByTwoSummary(columns, rows);
    CsvIsNonEmpty(columns, rows);
  }

  /**
   * The worked example: a mention of a user `id` followed by a question,
   * in a message outside any thread, where the statement for the question
   * returns two rows of two columns.
   */
  lemma SalesMentionExample(channel: string, ts: string, ackTs: string, id: string, question: string,
                            run: string -> Backend, columns: seq<string>, rows: seq<Row>)
    requires |id| >= 1 && forall i :: 0 <= i < |id| ==> IsIdChar(id[i])
    requires !ContainsToken(question)
    requires question != [] && !IsSpace(question[0])
    requires run(Command(Strip(question))) == Connected(Returned(columns, rows))
    requires |columns| == 2 && |rows| == 2
    ensures HandleMention(Event(Some("<@" + id + "> " + question), channel, ts, None, None, None), ackTs, run) ==
      Handling([
        React(channel, ts, "eyes"),
        Post(channel, ts, Placeholder(Strip(question))),
        Update(channel, ackTs, Resolved(Strip(question), "Returned 2 row(s), 2 column(s)")),
        Upload(channel, ts, CsvText(columns, rows), "results.csv", "Query Results")], None)
  {
    var e := Event(Some("<@" + id + "> " + question), channel, ts, None, None, None);
    assert TextOf(e) == ['<', '@'] + id + ['>'] + " " + question;
    LeadingMentionPrompt(id, " ", question);
    TwoByTwoAnswer(Strip(question), run, columns, rows);
    MentionAnsweredWithCsv(e, ackTs, run, "Returned 2 row(s), 2 column(s)", CsvText(columns, rows));
  }
}
