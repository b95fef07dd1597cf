# Personal finance assistant: the tool-call interpolation engine

This project models the back half of `get_llm_response` in the MCP finance
assistant. That is the part that takes the language model's reply text and
rewrites it by running the tools the reply names. It also models the three tools,
the transaction-history text, and the `transactions` table behind them, which
is modelled as an in-memory ledger.

The reply is rewritten in three fixed stages. Each stage works on the text the
previous one left:

1. **Total.** Every `calculate_total_expenses()` becomes the ledger total with
   two decimals.
2. **Log.** The search finds the first `log_expense(...)` call: the opener, the
   shortest run of non-newline characters, then `)`. The argument text is split
   on commas, and each token is stripped of whitespace and then of quotes. One
   row is appended to the ledger, and every copy of the call text becomes the
   confirmation. A failure leaves the text as it was and appends
   `"\nError logging expense: "` and the exception message.
3. **Exchange.** The first `get_exchange_rate(...)` call is handled the same
   way, with the 4-decimal rate. A failure appends
   `"\nError fetching exchange rate: "` and the message.

Modules, one file each:

- `Outcomes` (`outcomes.dfy`): the `Option` and `Result` datatypes.
- `PyStr` (`pystr.dfy`): the Python string operations the engine relies on.
  `in` is `Contains`; `IndexOf` is the leftmost search behind `in`,
  `str.replace` and `str.split`. `str.replace` is `ReplaceAll`, `str.split`
  is `Pieces`, `str.join` is `JoinWith` and `str.strip` is `Strip`.
  `IsSpace` is the whitespace set of `str.isspace`.
- `CallScanner` (`scanner.dfy`): `re.search(r"name\((.*?)\)", text)`, its
  `group(0)` and its `group(1)`.
- `Database` (`database.dfy`): the table as a `Ledger` class. It has a `rows`
  sequence and the AUTOINCREMENT counter `nextId`. `init_db`, `add_transaction`
  and `get_transactions` are its members, and `strftime("%Y-%m-%d")` is
  written out as `FormatDate`.
- `Tools` (`tools.dfy`): the history resource, `calculate_total_expenses`,
  `log_expense` and `get_exchange_rate`.
- `Interpolation` (`interpolation.dfy`): argument parsing and the three stages.
  Each stage appears twice. The first form is a function: `TotalStage`,
  `LogStage`, `ExchangeStage` and their composition `Respond`. The second form
  is imperative methods that follow the source's reassignments of
  `llm_response`: `LogStep`, `ExchangeStep` and `GetLlmResponse`. Each method
  is proved equal to its function.
- `Scenarios` (`scenarios.dfy`): concrete replies run through the stages.

Amounts are `real`. Python's float parsing and float formatting are not
interpreted. They are the fields of a `Conversions` value: `float()`,
`str()`, `:.2f`, `:.4f`, and `repr` for the exception messages that quote a
string. Every property holds whatever those functions are. The rate lookup is
a `RateFetch` oracle. For a base currency it returns the rate table, or the
message of whatever the request or the JSON decoding raised. The clock is a
`today` parameter.

Four behaviours of the code are easy to miss. The model follows the code in
each:

- `str.replace` replaces every copy of the matched call, not only the first.
- `strip("'\"")` removes any number of quotes, not one matching pair.
- Tokens after the third (log) or the second (exchange) are ignored, not
  rejected.
- A negative amount is logged like any other. No validation error exists.

## Model

| member | source | states |
|---|---|---|
| PyStr.IndexOf | src/mcp_server.py:87 | a found index is an occurrence of the pattern and no earlier index is; no index means the pattern occurs nowhere |
| PyStr.Contains | src/mcp_server.py:87 | `p in s` holds exactly when `p` occurs at some position of `s` |
| PyStr.ReplaceAll | src/mcp_server.py:89 | a text without the pattern comes back unchanged |
| PyStr.PiecesRejoin | src/mcp_server.py:89 | the pieces between the occurrences, joined by the pattern, give back the text |
| PyStr.ReplaceAllIsJoin | src/mcp_server.py:89 | `str.replace` leaves those pieces unchanged and puts the replacement in place of every occurrence |
| PyStr.ReplaceSingle | src/mcp_server.py:102 | with exactly one occurrence, only that span changes: the text before and after it is kept |
| PyStr.Pieces | src/mcp_server.py:97 | `split` gives at least one piece and no piece holds the separator |
| PyStr.SplitJoin | src/mcp_server.py:97 | splitting on a character undoes joining with it, for parts without that character |
| PyStr.JoinLength | src/mcp_server.py:16 | `sep.join(parts)` (`JoinWith`) starts with the first part and is as long as the parts plus one separator between each two neighbours |
| PyStr.Strip | src/mcp_server.py:97 | the result is a slice of the input, everything cut off is in the strip set, and its ends are not |
| PyStr.StripKeeps | src/mcp_server.py:97 | a text whose ends are outside the strip set is its own strip |
| PyStr.StripIdempotent | src/mcp_server.py:97 | stripping twice equals stripping once |
| CallScanner.CloseFrom | src/mcp_server.py:95 | `.*?\)` ends at the first `)` when no newline comes before it, and fails otherwise |
| CallScanner.FindCall | src/mcp_server.py:95 | a match is the opener followed by a lazy close; no match starts earlier; no match means none exists anywhere |
| CallScanner.Args | src/mcp_server.py:97 | `group(1)` is the text between the opener and the closing `)`, and it holds no `)` and no newline |
| CallScanner.Whole | src/mcp_server.py:102 | `group(0)` is the opener, `group(1)` and `)`, and `group(1)` holds no `)` and no newline |
| CallScanner.FindsCallAfter | src/mcp_server.py:95-96 | a call written after text where the opener does not start is the match, with its argument text and span |
| Database.Pad | src/database.py:53 | a zero-padded field has exactly the width and only digits |
| Database.PadValue | src/database.py:53 | a number below `10^width` reads back from its padded field |
| Database.FormatDate | src/database.py:53 | `%Y-%m-%d` is ten characters: digits with `-` at positions 4 and 7 |
| Database.FormatDateRoundTrip | src/database.py:53 | the stored date text reads back to the day it was written |
| Database.Project | src/database.py:43-46 | one transaction per row, in table order, with the row's date, amount, category and description |
| Database.ProjectAppend | src/database.py:43-46 | reading a table that gained one row gives the old reading followed by that row |
| Database.Ledger.constructor | src/database.py:19-27 | a new table is empty and its counter starts at 1 |
| Database.Ledger.Insert | src/database.py:51-54 | one INSERT appends one row carrying the next id and advances the counter |
| Database.Ledger.InitDb | src/database.py:29-36 | an empty table gets the three mock rows in order with consecutive ids; a non-empty table is untouched |
| Database.Ledger.AddTransaction | src/database.py:48-55 | exactly one row is appended, dated today, with an id above every earlier one; earlier rows are unchanged |
| Database.Ledger.GetTransactions | src/database.py:40-46 | one dict per stored row, in order, with the matching columns; the table is only read |
| Tools.HistoryLine | src/mcp_server.py:16 | a history line starts with the date and ends with the description, and holds no newline when none of its fields does |
| Tools.HistoryLines | src/mcp_server.py:16 | one line per transaction, in ledger order, in the `date - amount USD - category - description` format |
| Tools.HistoryRoundTrip | src/mcp_server.py:13-16 | `get_transaction_history` (`TransactionHistory`) is empty exactly for an empty ledger, and splitting it on newlines gives back one line per transaction |
| Tools.TotalConcat | src/mcp_server.py:19-22 | `calculate_total_expenses` (`TotalExpenses`, `sum` from 0): the total of a ledger is the sum of the totals of any split of it into a front and a back part |
| Tools.TotalAfterAppend | src/mcp_server.py:19-22 | after one row is appended, the total read from the table grows by exactly that row's amount |
| Database.SeedDates | src/database.py:31-35 | the three mock rows are dated 2025-03-01, -02 and -03, each exactly as `FormatDate` writes that day |
| Tools.SeedTotal | src/database.py:31-35 | the mock rows total 170 |
| Tools.LogExpense | src/mcp_server.py:25-28 | one row is appended to the ledger, and the confirmation names the amount, category and description |
| Tools.Confirmation | src/mcp_server.py:28 | the confirmation starts with `Logged expense: ` and the amount as `str` shows it, and ends with the description |
| Tools.GetExchangeRate | src/mcp_server.py:31-36 | the rate is the fetched table's entry for the target; a failed fetch passes on its message; a missing target gives the `KeyError` text |
| Interpolation.CleanToken | src/mcp_server.py:97 | a cleaned token neither starts nor ends with a quote and holds only characters of the raw piece |
| Interpolation.ParseArgs | src/mcp_server.py:97 | there is always a first token, and no token holds a comma |
| Interpolation.ParseJoined | src/mcp_server.py:97 | comma-free pieces joined by commas parse back to the cleaned pieces, one token per piece and in order |
| Interpolation.CleanQuoted | src/mcp_server.py:97 | a token written as `, 'text'` parses to `text`, inner spaces included |
| Interpolation.TotalStage | src/mcp_server.py:87-89 | the text is split into the pieces between the calls; the result is the same pieces joined by the 2-decimal total |
| Interpolation.LogStage | src/mcp_server.py:91-104 | no match leaves the text as it is and logs nothing; a logged expense implies a match; without one the text is kept or followed by the error note |
| Interpolation.ExchangeStage | src/mcp_server.py:106-115 | no match leaves the text as it is |
| Interpolation.AppendedTotal | src/mcp_server.py:98-101 | after the log stage, the ledger has one more row and the amount added to the total when an expense was logged; otherwise it is unchanged |
| Interpolation.ScansWrittenCall | src/mcp_server.py:95-97 | a call written into a reply is the match: its argument text is the joined pieces and its `group(0)` is the call text |
| Interpolation.LogStageLogs | src/mcp_server.py:95-102 | a numeric first token and at least three tokens log the first three tokens, and every copy of the call becomes the confirmation |
| Interpolation.LogStageLogsOnce | src/mcp_server.py:102 | with no other copy of the call, only its span becomes the confirmation |
| Interpolation.LogStageRejectsAmount | src/mcp_server.py:98-104 | a first token that `float` rejects logs nothing, keeps the text and appends the `ValueError` note |
| Interpolation.LogStageTooFewArgs | src/mcp_server.py:98-104 | a numeric first token with fewer than three tokens logs nothing, keeps the text and appends the `IndexError` note |
| Interpolation.ExchangeStageConverts | src/mcp_server.py:109-113 | a rate found for the first two tokens replaces every copy of the call with the 4-decimal rate |
| Interpolation.ExchangeStageConvertsOnce | src/mcp_server.py:113 | with no other copy of the call, only its span becomes the rate |
| Interpolation.ExchangeStageFails | src/mcp_server.py:111-115 | a failed fetch or a missing currency keeps the text and appends the note with the failure's message |
| Interpolation.ExchangeStageTooFewArgs | src/mcp_server.py:111-115 | a single token keeps the text and appends the `IndexError` note |
| Interpolation.Respond | src/mcp_server.py:87-115 | the three stages composed: an expense is logged only for a `log_expense(...)` match in the text the total stage left, and a reply that names no tool is returned unchanged and logs nothing |
| Interpolation.LogStep | src/mcp_server.py:91-104 | the imperative log stage yields `LogStage`'s text, appends exactly the row it reports, and advances the id counter only for that row |
| Interpolation.ExchangeStep | src/mcp_server.py:106-115 | the imperative exchange stage yields `ExchangeStage`'s text |
| Interpolation.GetLlmResponse | src/mcp_server.py:86-117 | the three stages run in order, each on the text the one before produced, with the total taken before the log; the ledger gains exactly the logged row, and the id counter advances only for it |
| Scenarios.TotalSentence | src/mcp_server.py:87-89 | `Your total is calculate_total_expenses() USD.` over the mock ledger becomes `Your total is 170.00 USD.` |
| Scenarios.GroceriesArgs | src/mcp_server.py:97-100 | the argument text `50.0, 'Food', 'Groceries'` parses to `50.0`, `Food` and `Groceries` |
| Scenarios.LogsGroceries | src/mcp_server.py:95-102 | a reply ending in `log_expense(50.0, 'Food', 'Groceries')` logs that expense and ends in the confirmation |
| Scenarios.RejectsAbc | src/mcp_server.py:98-104 | `log_expense(abc, Food, Groceries)` stays as written, followed by the `ValueError` note |
| Scenarios.RateFetchFails | src/mcp_server.py:111-115 | `get_exchange_rate('USD', 'EUR')` with a failing request stays as written, followed by one exchange-rate note |

## Left out

- The language-model call and its prompt (src/mcp_server.py:68-84, 39-66).
  The reply text is an input. The history string is modelled
  (`TransactionHistory`), but its use as prompt context is not.
- The HTTP request and the JSON decoding of `get_exchange_rate`
  (src/mcp_server.py:33-35). They are the `RateFetch` oracle. A reply without
  `rates` is one of its error messages.
- sqlite itself: connections, commits, the `db` directory, and file paths
  (src/database.py:9-17, 37-38, 41-45, 49-50, 55-56). `init_db` opens the
  database at an absolute path. `get_transactions` and `add_transaction` open
  the relative `db/transactions.db`. The model has one ledger and does not
  capture the case where these are two different files.
- Storage errors during `add_transaction`. In the source they would show up
  as a logging error note. The model's append always succeeds.
- Float arithmetic and formatting. These include rounding in `sum`, `inf` and
  `nan`, and exactly which strings `float()` accepts. They are the
  uninterpreted `Conversions` fields. `sum` of an empty ledger is the integer
  `0`, whose `:.2f` text is the same as that of `0.0`, so the model uses `0.0`.
- `datetime.now()`: the `today` parameter. `FormatDate` pads the year to four
  digits for all years from 1 to 9999.
- Concurrency between requests, and the MCP and FastAPI plumbing (`main.py`
  and the decorators in src/mcp_server.py).
- PyStr.ReplaceAll: its own contract covers only a text without the pattern.
  What it does to every occurrence is stated by `ReplaceAllIsJoin`.
- Interpolation.ExchangeStage: its own contract covers only the no-match case.
  The other cases are stated by the `ExchangeStage*` lemmas.
- Interpolation.LogStage: its own contract does not give the confirmation
  text. `LogStageLogs` and the other `LogStage*` lemmas give it.
- Interpolation.LogStageLogs: assumes `FirstAfter`, that the reply's first opener
  starts the match. A reply where an earlier opener has no closing `)` on its
  line is covered only by `LogStage` itself.
- Interpolation.LogStageLogsOnce: assumes `FirstAfter`, that the reply's first opener
  starts the match. A reply where an earlier opener has no closing `)` on its
  line is covered only by `LogStage` itself.
- Interpolation.LogStageRejectsAmount: assumes `FirstAfter`, that the reply's first opener
  starts the match. A reply where an earlier opener has no closing `)` on its
  line is covered only by `LogStage` itself.
- Interpolation.LogStageTooFewArgs: assumes `FirstAfter`, that the reply's first opener
  starts the match. A reply where an earlier opener has no closing `)` on its
  line is covered only by `LogStage` itself.
- Interpolation.ExchangeStageConverts: assumes `FirstAfter`, that the reply's first opener
  starts the match. A reply where an earlier opener has no closing `)` on its
  line is covered only by `ExchangeStage` itself.
- Interpolation.ExchangeStageConvertsOnce: assumes `FirstAfter`, that the reply's first opener
  starts the match. A reply where an earlier opener has no closing `)` on its
  line is covered only by `ExchangeStage` itself.
- Interpolation.ExchangeStageFails: assumes `FirstAfter`, that the reply's first opener
  starts the match. A reply where an earlier opener has no closing `)` on its
  line is covered only by `ExchangeStage` itself.
- Interpolation.ExchangeStageTooFewArgs: assumes `FirstAfter`, that the reply's first opener
  starts the match. A reply where an earlier opener has no closing `)` on its
  line is covered only by `ExchangeStage` itself.
