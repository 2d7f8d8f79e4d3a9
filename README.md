# homework_bot — a Dafny model of its decision logic

The bot polls a homework-review service and reports status changes to the student
through a chat bot. All of its logic lives in `homework.py`. This project
models the parts of that file that make decisions:

- `check_response`: validates the decoded answer. Its checks run in a fixed order, and each failing check raises its own exception.
- `parse_status`: turns one homework record into the notification text, using the fixed `VERDICTS` table.
- `check_tokens`: the startup test of the three credentials.
- `main`: the body of the `while True` loop. It is a one-variable state machine over `prev_report`, the last text delivered.

Modules:

- `Wrappers` (`wrappers.dfy`): `Option` and `Result`.
- `Json` (`json.dfy`): decoded JSON values with Python truthiness, `dict.get`, `key in dict`, and the text an f-string inserts (`str`/`repr`).
- `Homework` (`homework.dfy`): `check_response` and `parse_status`, with the exception each raises, including its class and message; the `VERDICTS` table; `check_tokens`.
- `PollLoop` (`poll_loop.dfy`):
  - the loop state as the class `Poller` (field `prevMessage`), whose `Step` method runs one pass of the loop body;
  - `Run`, which checks the credentials and then runs `Step` over a finite sequence of cycles;
  - the functions `ReportOf`, `Decide` and `Replay`, which define what a cycle and a run do;
  - the lemmas about runs.

The outside world is made of inputs:

- The answer of the review service is a `FetchOutcome`: a failed request, or the decoded JSON body.
- Whether the chat accepts a message is a boolean of each cycle.
- The credentials are three `Option<string>` values: an unset environment variable is `None`.

Three consequences of the code are worth stating, because the model keeps them:

- A failed send raises inside the `try` block, so `prev_report = ...` (line 126) is skipped and `prev_report` keeps its value. A later cycle that produces the same text from that unchanged state tries the send again.
- An empty `homeworks` list is falsy, so `check_response` rejects it at line 74. `homeworks[0]` at line 121 therefore never fails.
- `current_date` is always required. Its check (line 76) comes before the list-type check (line 78).

## Model

| member | source | states |
|---|---|---|
| `Json.Truthy` | homework.py:74 | Python truthiness, as tested here and at line 86: a decoded value is falsy exactly when it is `None`, `False`, `0`, `""`, `[]` or `{}` |
| `Json.HasKeyIsKeyMembership` | homework.py:76 | `key in d` holds exactly when the key is among the keys of the dictionary's members |
| `Json.Lookup` | homework.py:73 | a value is found under a key exactly when the dictionary has that key |
| `Json.LookupFindsLast` | homework.py:73 | the value found is that of the last member carrying the key, as the decoder keeps the last duplicate |
| `Json.Get` | homework.py:85-88 | `d.get(k)` is `None` for an absent key and otherwise the stored value |
| `Json.TypeName` | homework.py:85-89 | the Python type name of a decoded value, as the `AttributeError` and unhashable `TypeError` messages show it; `list` and `dict` name exactly lists and dictionaries |
| `Json.Text` | homework.py:92 | what an f-string inserts (`str(x)`): a string as it is, any other value as its non-empty `repr` |
| `Json.Repr` | homework.py:92 | defines `repr(x)` for the modelled values as CPython prints them: a string through `Quoted`, with the quote, the backslash, `\t`, `\n`, `\r` and other ASCII control characters escaped as `str.__repr__` escapes them; its contract states that the result is non-empty, a string's repr opens and closes with the same quote, a list's is bracketed, a dict's braced, and an integer's starts with `-` exactly when it is negative |
| `Json.Quoted` | homework.py:92 | the repr of a string opens and closes with the same quote, the double quote exactly when the string holds a single quote and no double quote |
| `Json.Decimal` | homework.py:92 | the repr of an integer: a `-` exactly when it is negative, followed by decimal digits whose value is the integer's absolute value |
| `Json.Digits` | homework.py:92 | the decimal text of a natural number: digits only, no leading zero, and the number they spell is the number itself |
| `Homework.CheckResponse` | homework.py:69-80 | succeeds exactly on a dict with `current_date` and a non-empty list under `homeworks`, and then returns that list unchanged; a non-dict is a `TypeError` whatever else holds; a `TypeError` on a dict happens only when `current_date` is present; only `TypeError` and `KeyError` are raised; the list-type `TypeError` itself is stated by `NonListHomeworksRejected` |
| `Homework.FalsyHomeworksRejected` | homework.py:73-75 | a missing or falsy `homeworks` value, the empty list included, is the `KeyError` about `homeworks` |
| `Homework.CurrentDateCheckedBeforeListType` | homework.py:76-79 | a dict with truthy `homeworks` and no `current_date` is the `KeyError` about `current_date`, even when `homeworks` is not a list |
| `Homework.NonListHomeworksRejected` | homework.py:76-79 | a dict with `current_date` and a truthy `homeworks` value that is not a list is the `TypeError` about the list type |
| `Homework.StringHomeworksExample` | homework.py:73-79 | `{"homeworks": "x"}` fails with the `current_date` `KeyError`; with `current_date` added it fails with the list `TypeError` |
| `Homework.Notice` | homework.py:92 | the notification text starts with the fixed prefix and ends with the verdict sentence |
| `Homework.KnownStatus` | homework.py:39-43 | a status is in the `VERDICTS` table, as line 89 tests it, exactly when it is the string `approved`, `reviewing` or `rejected` |
| `Homework.ParseStatus` | homework.py:83-92 | succeeds exactly on a dict with a truthy `homework_name` and a status in the table, and the text is the fixed prefix, the name as `str()` shows it, `". ` and the status's verdict; a non-dict is an `AttributeError` and only a non-dict is; a missing or falsy name is the `KeyError` about `homework_name` |
| `Homework.UnknownStatusRejected` | homework.py:88-90 | with a usable name, a status outside the table is a `TypeError` (unhashable list or dict) or else the `KeyError` about the status |
| `Homework.VerdictsDistinct` | homework.py:39-43 | the three verdict sentences are pairwise different |
| `Homework.VerdictSuffixDetermined` | homework.py:39-43 | no verdict sentence ends another, so the sentence at the end of a text and the text before it are determined |
| `Homework.NoticeInjective` | homework.py:92 | two notification texts are equal exactly when the inserted names read the same and the verdicts are the same |
| `Homework.ParseStatusInjective` | homework.py:83-92 | two successfully formatted records give the same text exactly when their names read the same and their statuses are equal, so a new status under the same name always gives a new text |
| `Homework.ApprovedExample` | homework.py:83-92 | name `X` with status `approved` gives the prefix, `X`, `". ` and the approved verdict |
| `Homework.UnknownStatusExample` | homework.py:89-90 | status `unknown_status` is the `KeyError` about the status |
| `Homework.All` | homework.py:97 | `all(...)` over credentials holds exactly when every one is set and non-empty |
| `Homework.CheckTokens` | homework.py:95-98 | true exactly when all three credentials are set and non-empty |
| `PollLoop.ReportOf` | homework.py:119-121 | a cycle produces a text exactly when the fetch succeeded, the answer is well formed and its first record formats; a failed fetch is reported as such; every other stop carries the exception `check_response` or `parse_status` raised |
| `PollLoop.Decide` | homework.py:122-127 | a send is attempted exactly when there is a text and it differs from the state; the state changes only on a successful send, to the text sent; an unchanged text keeps the state; failures keep the state; a rejection carries the error of the exception that stopped the cycle |
| `PollLoop.DeliveredMessages` | homework.py:123 | the texts that reached the chat are exactly those of the cycles whose send went through |
| `PollLoop.Replay` | homework.py:112-131 | the passes of the `while True` loop run in order from a starting state, one event per pass |
| `PollLoop.Poller.constructor` | homework.py:111 | the loop starts with no text delivered |
| `PollLoop.Poller.Step` | homework.py:113-129 | one pass of the `try` block: the new state and the event are those of `Decide` on the old state; a send attempt only for a text different from the old state; the state changes only on delivery |
| `PollLoop.Run` | homework.py:101-131 | starts exactly when the credentials pass `check_tokens` and otherwise does nothing; once started, its events and final state are the replay of the cycles from no delivered text |
| `PollLoop.FailedSendIsRetried` | homework.py:122-127 | a failed send leaves the state as it was, and the same text from that unchanged state is then delivered by a cycle whose send succeeds |
| `PollLoop.FailedSendsKeepState` | homework.py:122-127 | any number of cycles with a new text whose sends fail are each a failed send and leave the state as it was |
| `PollLoop.FailedSendsRetriedUntilDelivered` | homework.py:122-127 | after any number of failed sends of a new text, the first cycle with that text whose send succeeds delivers it, and the state becomes that text |
| `PollLoop.IdenticalCyclesDeliverOnce` | homework.py:122-126 | two consecutive cycles with the same text, the first with a working send, deliver it once, or never if it was the last delivered; the second cycle never sends, whether or not its send would work |
| `PollLoop.StateIsLastDelivered` | homework.py:111-126 | after any run the state is the last text delivered, or the starting state when nothing was delivered |
| `PollLoop.NoRepeatedDelivery` | homework.py:122-126 | the chat never receives the same text twice in a row, and the first text delivered differs from the starting state |
| `PollLoop.UnformattedKeepState` | homework.py:119-129 | cycles that stop before producing a text never send and leave the state unchanged |
| `PollLoop.FirstFormattedCycleSends` | homework.py:111-123 | from a fresh start, the first cycle that produces a text always tries to send it |
| `PollLoop.RepeatedCycleDeliversAtMostOnce` | homework.py:122-126 | the same cycle repeated any number of times delivers at most one message, its own text |
| `PollLoop.StatusChangeIsSent` | homework.py:121-123 | when the state holds the text of a homework and its status changes under the same name, the cycle tries to send |
| `PollLoop.ReviewingScenario` | homework.py:112-126 | the answer with one `hw1` homework in `reviewing` seen twice from a fresh start delivers the reviewing text once, then stays quiet |

## Left out

- Loading `.env` and reading the environment (lines 9, 14, 30-32): the credentials are inputs of `Run`.
- Logging setup and every log call (lines 16-28, 57, 105, 110, 125, 128-129): output only.
- The HTTP request of `get_api_answer` (lines 55-66) is network I/O. This covers the status-code check, `.json()` and the `from_date` parameter. The model has its outcome as an input: a failed fetch (`ConnectionError`, `GetApiAnswerException` or a decoding error, all caught at line 127), or a decoded body.
- The Telegram client (lines 46-52, 108) is a foreign library. Whether a send succeeds is an input of each cycle. If the bot cannot be built at line 108, `bot` is unbound and every later send raises. The model treats that as a failing send.
- `time.time()`, `ONE_MONTH` and `time.sleep(RETRY_TIME)` (lines 58, 114, 131): clock and sleeping. They do not affect the deduplication.
- `sys.exit` (line 106): `Run` reports that it did not start and runs no cycle.
- The loop runs forever. `Run` covers any finite prefix of it, given as a sequence of cycles.
- JSON numbers with a fraction or exponent (Python floats) are not modelled. Numbers are integers, so `0.0` as a falsy value is not covered.
- `Json.Repr`: a list or dict used as a homework name is shown as Python's `repr` shows it. Two details are not modelled: non-ASCII characters that Python deems unprintable are left as they are instead of escaped, and a decoded object is assumed to keep its members in document order even when a key repeats.
- Exceptions raised inside the loop are collapsed into one of `FetchError`, `Rejected` and `SendFailed`. Python exceptions the model does not name are not modelled separately; every exception ends the cycle the same way.
- The module `exception` (homework.py:11) is not part of this model. `GetApiAnswerException` and `BotMessageException` are assumed to derive from `Exception`, so that the `except Exception` at line 127 catches them: a failed fetch or send ends the cycle and the loop goes on. If either derived from `BaseException` alone, such a failure would end `main` instead, and `FailedSendIsRetried` with the lemmas built on it would not describe that behaviour.
