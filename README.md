# duckdb-acp-slack: query reply protocol

This project models the core of `duckdb-acp-slack`, a Slack bot that passes
questions to the DuckDB ACP extension as `CLAUDE <question>;` statements and
posts the results back into the Slack thread. Three pieces are modelled:

- `query_claude` (module `Formatter`). It turns what the database did into a
  reply: a summary line plus an optional CSV. The CSV is built by a loop
  (`Formatter.BuildCsv`), which is proved equal to the specification
  function `Formatter.CsvText`. The database is a parameter: a function
  `run` from the statement sent to it to what happened (`Backend`). It
  either fails during setup, raises while executing, or returns columns and
  rows. `Formatter.QueryFor` gives `run` the statement `CLAUDE <prompt>;`.
- Prompt extraction (modules `Mentions` and `Text`). These model the
  `<@[A-Z0-9]+>\s*` substitution, the `re.search` for a mention, and
  Python's `str.strip`. `Text.IsSpace` uses the whitespace set shared by
  `str.strip` and the `\s` class.
- The two event handlers (module `Handlers`). `handle_mention` and
  `handle_message` map an event to the trace of Slack calls they make
  (`React`, `Say`, `Post`, `Update`, `Upload`). The trace also says whether
  an exception escapes. The timestamp of the placeholder message returned
  by Slack is a parameter (`ackTs`).

A connection failure happens at `src/duckdb_acp_slack/__init__.py:49`.
`get_connection()` is called there before the `try`, so a failure while
loading the extension or attaching sources is not turned into an error
reply. It escapes from `query_claude` after the placeholder has been posted.
Unlike an error raised by the statement, a setup failure is therefore never reported in Slack, and the placeholder stays as posted.
The model follows the code (`Formatter.QueryClaude`, `Handlers.SetupFailureEscapes`).

## Model

| member | source | states |
|---|---|---|
| Text.StripIsTrimmedSlice | src/duckdb_acp_slack/__init__.py:141 | stripping keeps one contiguous slice of the text; everything outside that slice is whitespace, and the slice neither starts nor ends with whitespace |
| Text.Strip | src/duckdb_acp_slack/__init__.py:141-143 | the stripped text is empty exactly when the whole text is whitespace; otherwise it neither starts nor ends with whitespace, and it is never longer than the text |
| Text.SplitJoin | src/duckdb_acp_slack/__init__.py:63 | splitting a newline-joined list of lines at newlines gives the lines back, provided no line contains a newline |
| Text.DecimalRoundTrip | src/duckdb_acp_slack/__init__.py:65 | a count written in decimal in the summary reads back as the same count |
| Mentions.TokenLengthMatches | src/duckdb_acp_slack/__init__.py:90 | the anchored matcher accepts a prefix exactly when it has the form `<@` + one or more of A-Z/0-9 + `>`, and the match length is unique |
| Mentions.FindToken | src/duckdb_acp_slack/__init__.py:134 | the search finds a mention exactly when the text contains one, at the leftmost position where one starts |
| Mentions.RemoveMentionsIdentityIff | src/duckdb_acp_slack/__init__.py:90 | the substitution leaves the text unchanged exactly when the text contains no mention |
| Mentions.RemoveMentionsShrinks | src/duckdb_acp_slack/__init__.py:90 | the substitution never lengthens the text, and it strictly shortens any text that contains a mention |
| Mentions.RemoveMentionsKeepsPrefix | src/duckdb_acp_slack/__init__.py:90 | text before the first `<` is kept verbatim |
| Mentions.LeadingMentionRemoved | src/duckdb_acp_slack/__init__.py:90 | a leading mention and all whitespace after it are removed, and the rest is processed as if the mention were absent |
| Mentions.SubstitutionIsSinglePass | src/duckdb_acp_slack/__init__.py:90 | the substitution is one left-to-right pass: `<<@A>@B>` becomes `<@B>`, which still contains a mention |
| Formatter.CommandRoundTrip | src/duckdb_acp_slack/__init__.py:52 | the prompt can be read back from the statement `CLAUDE <prompt>;` it is spliced into without escaping, so different prompts send different statements |
| Formatter.Format | src/duckdb_acp_slack/__init__.py:53-69 | a CSV is produced exactly when the statement returned at least one row |
| Formatter.QueryClaude | src/duckdb_acp_slack/__init__.py:47-71 | `query_claude` raises exactly when connection setup fails; errors raised by the statement become an error reply |
| Formatter.CsvLines | src/duckdb_acp_slack/__init__.py:60-62 | the header line comes first, then one line per row in row order |
| Formatter.CsvText | src/duckdb_acp_slack/__init__.py:63 | the CSV always starts with the header line, and is exactly the header line when there are no rows |
| Formatter.BuildCsv | src/duckdb_acp_slack/__init__.py:60-63 | the loop that appends one line per row and joins them with newlines computes exactly `CsvText` |
| Formatter.RunQuery | src/duckdb_acp_slack/__init__.py:47-71 | sending the prompt's statement to the database and formatting the outcome through the CSV loop gives `QueryFor(prompt, run)` |
| Formatter.NoRowsNoCsv | src/duckdb_acp_slack/__init__.py:56-57 | no rows gives `_No results_` and no CSV, whatever the columns |
| Formatter.ErrorIsReported | src/duckdb_acp_slack/__init__.py:68-69 | an error raised by the statement is reported as `*Error:* ` followed by the error text in backticks, with no CSV |
| Formatter.RowsAreSummarised | src/duckdb_acp_slack/__init__.py:60-66 | with rows, the message names the row count and then the column count, and the CSV is present |
| Formatter.CsvIsNonEmpty | src/duckdb_acp_slack/__init__.py:60-63 | with at least one row, the CSV contains a newline and begins with the header line followed by a newline, so it is never empty |
| Formatter.CsvLinesRoundTrip | src/duckdb_acp_slack/__init__.py:60-63 | when no header or value contains a newline, splitting the CSV at newlines gives the header and then each row's line |
| Formatter.RowFieldsRoundTrip | src/duckdb_acp_slack/__init__.py:62 | when no value contains a comma, splitting a row line at commas gives the row's values, with NULL shown as empty |
| Formatter.CommaInValueAddsField | src/duckdb_acp_slack/__init__.py:62 | values are not quoted: a two-value row whose first value contains a comma splits into three fields |
| Formatter.TwoRowExample | src/duckdb_acp_slack/__init__.py:53-66 | columns a,b with rows (1,x) and (2,NULL) give CSV `a,b\n1,x\n2,` and the message `Returned 2 row(s), 2 column(s)` |
| Formatter.SummaryRoundTrip | src/duckdb_acp_slack/__init__.py:65 | the row and column counts can be read back from the summary line |
| Formatter.MessagesAreDistinct | src/duckdb_acp_slack/__init__.py:57-69 | the no-results message, the error message and the summary line cannot be confused with one another |
| Handlers.MentionPrompt | src/duckdb_acp_slack/__init__.py:90 | the mention prompt is empty exactly when the text is nothing but mentions and whitespace; text without a mention gives its plain stripped text, as a message would |
| Handlers.MessagePrompt | src/duckdb_acp_slack/__init__.py:130-143 | a plain message has a prompt exactly when it is not from a bot, has no subtype, contains no mention and is not blank; the prompt is the stripped text |
| Handlers.Respond | src/duckdb_acp_slack/__init__.py:102-123 | the placeholder is always posted first; an exception escapes exactly when `query_claude` raised, and then nothing follows the placeholder; otherwise the placeholder is edited into the query and the reply |
| Handlers.HandleMention | src/duckdb_acp_slack/__init__.py:79-126 | the first call is always the `eyes` reaction; the next is the instruction reply exactly when the prompt is empty, and the placeholder post exactly when it is not |
| Handlers.HandleMessage | src/duckdb_acp_slack/__init__.py:128-171 | a plain message makes no call exactly when it has no prompt, and then nothing is raised |
| Handlers.MentionRunsItsPrompt | src/duckdb_acp_slack/__init__.py:90-108 | the mention handler depends on the database only through the statement `CLAUDE <prompt>;` for its extracted prompt |
| Handlers.MessageRunsItsText | src/duckdb_acp_slack/__init__.py:141-153 | the message handler depends on the database only through the statement `CLAUDE <text>;` for its stripped text |
| Handlers.MentionAnsweredWithCsv | src/duckdb_acp_slack/__init__.py:79-123 | a mention whose statement gives a reply with a CSV produces the reaction, the placeholder in the thread, its edit into the query and message, and the `results.csv` upload in the thread |
| Handlers.EmptyMentionAsksForQuestion | src/duckdb_acp_slack/__init__.py:85-98 | a mention with nothing but mentions and whitespace gets the reaction and then only the instruction reply in its thread; no query is run |
| Handlers.MessageIgnoredIff | src/duckdb_acp_slack/__init__.py:130-143 | a plain message produces no Slack call exactly when it is from a bot, has a subtype, contains a mention, or is blank; ignoring it raises nothing |
| Handlers.MessagePromptIsStrippedText | src/duckdb_acp_slack/__init__.py:130-143 | a plain message that is answered has its text stripped of surrounding whitespace as the prompt, and it contains no mention |
| Handlers.RespondProtocol | src/duckdb_acp_slack/__init__.py:102-123 | with a connection, the reply posts the placeholder, edits that same message into the query and result, and uploads `results.csv` exactly when there is a CSV; nothing escapes |
| Handlers.SetupFailureEscapes | src/duckdb_acp_slack/__init__.py:102-108 | when connection setup fails, only the placeholder is posted and the setup error escapes |
| Handlers.MentionRepliesInThread | src/duckdb_acp_slack/__init__.py:79-123 | a mention is first acknowledged with the `eyes` reaction; every later call goes to the event's channel and `thread_ts`, or edits the placeholder; outside a thread that is a thread under the mention itself |
| Handlers.MessageRepliesInThread | src/duckdb_acp_slack/__init__.py:139-168 | every call made for a plain message goes to its channel and `thread_ts`, or edits the placeholder; outside a thread that is a thread under the message itself |
| Handlers.LeadingMentionPrompt | src/duckdb_acp_slack/__init__.py:90 | for `<@ID>`, then whitespace, then a question holding no mention (links and channel references included), the prompt is the stripped question |
| Handlers.MentionedQuestionAnswered | src/duckdb_acp_slack/__init__.py:79-123 | a mention `<@ID> question` outside any thread gets the reaction, then the query exchange for the stripped question in a new thread on the mention |
| Handlers.SalesMentionExample | src/duckdb_acp_slack/__init__.py:79-123 | a mention whose statement returns two rows and two columns produces the reaction, the placeholder, its update with the two-row summary, and the `results.csv` upload, in that order |

## Left out

- Connection setup (`get_connection`, lines 28-44) and `conn.close()` (lines 70-71): the database is a parameter, and setup is only distinguished as succeeding or failing.
- The conversion of values with `str()` and of exceptions to text: cells are given as already-rendered strings (`None` for NULL), and an error as its description.
- The name of each column is taken as given; the case where `result.description` is missing is covered as a raised error.
- Failures of `chat_postMessage`, `chat_update` and `files_upload_v2`: Slack calls other than the reaction are assumed to succeed. A failure of the reaction is swallowed by the source, so the trace always records the reaction.
- A `KeyError` for an event without `channel` or `ts`: the model's events always carry both.
- Console logging and the 80-character truncation of logged prompts (lines 100, 124-126, 145, 169-171): output only.
- The command-line interface, environment variables and Socket Mode startup (lines 16-25 and 176-268), and concurrent delivery of events.
- Mentions.RemoveMentions: models only the one pattern `<@[A-Z0-9]+>\s*`, not a general regular-expression engine.
- Text.IsSpace: Python's whitespace set is written out as code points; other Unicode processing does not occur in the modelled code.
