# homework_bot: the decision logic of one poll cycle

The bot polls the homework-status API of a review service every ten minutes
and relays the status of the most recent submission to a Telegram chat. This
project models, in Dafny, what one poll cycle decides: how the outcome of the
request becomes a decoded body, how the body is validated, how the first
homework record becomes the message, which exceptions end the cycle, and
which out-of-band alerts are attempted on the way. It also models `main` over
a finite run of request outcomes: the start-up credential check, the cursor
that stays at 0, and the fixed sleep after every cycle.

Modules:

- `PyValues` (`pyvalues.dfy`): the decoded JSON body as a datatype (`Json`),
  Python's truth value (`Truthy`), `type(x).__name__`, `dict.get`, `str()` of
  a value and of an exception, and the exceptions raised (`PyError`).
- `Homework` (`homework.dfy`): the verdict table, `check_tokens`,
  `get_api_answer` over an abstract request outcome, `check_response` and
  `parse_status`, each as a function returning the alerts attempted and the
  result or exception. It also holds a reader of the chat messages
  (`ReadNotification`) proved to invert the message format.
- `PollLoop` (`poll_loop.dfy`): one cycle of the `while True` body with its
  catch-all handler (`Cycle`), and `main` as a method over a sequence of
  request outcomes (`RunBot`).

How the model represents what it cannot run:

- The HTTP request is the parameter `outcome`: a reply with a status code and
  the body `response.json()` produces, or a `RequestException` raised by the
  request or by the decoding (with requests 2.27 and later a body that is not
  JSON raises a `RequestException` subclass, so it is `RequestFailed`).
- Python's `None` is `JNull`; so `get_api_answer`'s implicit return value
  after a failed request and `check_response`'s `return None` are both
  `JNull`, exactly as indistinguishable as in Python from a list whose first
  element is `null`.
- Every out-of-band alert (`telegram.Bot.send_message(token=..., text=...)`)
  is recorded by its text in the order attempted. These calls are made on the
  class, without a bot instance and without a chat id, and pass a keyword
  `token` that the library's `Bot.send_message(self, chat_id, text, ...)` does
  not take; Python's argument binding rejects such a call with `TypeError`.
  The parameter `alertFault` says what the call does: `Some(t)` when it
  raises an exception whose text is `t`, which is what the program as written
  does, or `None` when it returns, which is what its authors evidently meant.
  With `Some(_)`, a failed request ends at the fetch alert and never reaches
  the validator's alert (`CycleAfterFailedRequest`). The model follows every
  consequence of either choice, and `CycleSentIgnoresAlertFault` proves that
  the choice never changes what is sent.
- A failed request is followed, when its alert returns, by a second alert
  and a `TypeError` from `check_response`, because the code hands the implicit
  `None` on to the validator rather than stopping the cycle at the fetch.
- The code checks only that `homeworks` is a list, not the type of its
  elements; a non-dict truthy first element raises `AttributeError` at
  `homework.get`, and a list or dict status raises `TypeError` at the table
  lookup. The model follows the code.
- The cursor `timestamp` is set to 0 once and never advanced, so every
  request asks for `from_date` 0. `RunBot` records the `from_date` of every
  request and proves it is 0; this is the code's behaviour and is not changed.

## Model

| member | source | states |
|---|---|---|
| `Homework.CheckTokens` | homework.py:40-45 | true exactly when all three secrets are set and non-empty |
| `Homework.Alert` | homework.py:57-76 | records the alert text; the next result follows when the library call returns, the call's own exception when it raises |
| `Homework.GetApiAnswer` | homework.py:48-62 | a 200 reply yields its body with no alert; any other status attempts the connection alert and a transport failure the other one, after which the result is `None`, or the alert's own exception |
| `Homework.CheckResponse` | homework.py:65-86 | succeeds exactly on a dict whose `homeworks` is a list, returning `None` for an empty list and the first element otherwise, with no alert; a non-dict attempts an alert and, when the alert call returns, raises `TypeError`; a dict without `homeworks` attempts an alert and, when the alert call returns, raises `KeyError`; when the alert call raises, its own exception is the result; a non-list `homeworks` raises `TypeError` with no alert |
| `Homework.CheckResponseIgnoresTail` | homework.py:83-86 | two `homeworks` lists with the same first element give the same result, that element, whatever follows |
| `Homework.CheckResponseRejectsNone` | homework.py:65-71 | the `None` left by a failed request attempts the alert and, when the alert call returns, raises `TypeError` |
| `Homework.VerdictTableIsClosed` | homework.py:21-25 | the table has exactly the keys approved, reviewing, rejected, with three distinct verdicts |
| `Homework.ParseStatus` | homework.py:89-100 | succeeds exactly on a dict with `homework_name` and a `status` that is a key of the table, returning the prefix, the name, the separator and the verdict; a non-dict raises `AttributeError`; a missing name raises `KeyError`; a list or dict status raises `TypeError` |
| `Homework.ParseStatusChecksNameFirst` | homework.py:91-95 | without `homework_name` the record raises `KeyError` whether its status is absent, unknown or valid |
| `Homework.ParseStatusRejectsUnknownStatus` | homework.py:92-98 | with a name present, an absent status or a hashable status outside the table raises `ValueError` |
| `Homework.ReadNotificationRoundTrip` | homework.py:99-100 | the name and the status can be read back from every notification, so the message identifies them |
| `Homework.NoReviewMessageIsNotANotification` | homework.py:125-128 | the fallback message differs from every notification and reads as none |
| `PyValues.Truthy` | homework.py:125 | Python's truth value of a decoded value: false exactly for `None`, `False`, `0`, `""`, `[]` and `{}` |
| `PyValues.TypeName` | homework.py:81 | `type(x).__name__`: each kind of decoded value has its own name, `NoneType`, `bool`, `int`, `str`, `list` or `dict`, and the name identifies the kind |
| `PyValues.Get` | homework.py:91-92 | `dict.get`: the value stored under a present key, `None` for an absent one, so a non-`None` result means the key is present |
| `PyValues.ErrorText` | homework.py:132 | `str()` of each exception raised here: a `KeyError`'s key between single quotes, any other exception's argument |
| `PyValues.Display` | homework.py:100 | a string name is inserted unchanged and an integer name as `str()` of it |
| `PyValues.NatToString` | homework.py:100 | `str()` of a non-negative integer: decimal digits that denote it, without a leading zero |
| `PyValues.IntToString` | homework.py:100 | `str()` of an integer: the digits of its magnitude, denoting it and without a leading zero, after a minus sign when it is negative |
| `PollLoop.ChooseMessage` | homework.py:125-128 | a falsy record gives the fallback message; the chosen message reads as a notification exactly when the record is truthy, and then as that record's name and status; an exception comes only from `parse_status` on a truthy record |
| `PollLoop.Cycle` | homework.py:122-133 | each cycle either sends exactly one message or ends in a caught exception and logs a line, never both, the line being the fixed prefix and `str()` of the exception; it sends only after a 200 reply with a documented body |
| `PollLoop.CycleLogsFailure` | homework.py:131-133 | a 200 body without `homeworks` logs exactly `Сбой в работе программы: 'В ответе нет ключа homeworks'` when the alert call returns; otherwise the fixed prefix followed by the text of the alert call's own exception |
| `PollLoop.CycleSends` | homework.py:122-129 | a cycle sends a message exactly when the reply is 200 with a documented body, and the message is the fallback for an empty list or falsy first record, otherwise the notification `parse_status` builds |
| `PollLoop.CycleSendsVerdict` | homework.py:122-129 | a first record with a string name and a known status sends exactly its notification and attempts no alert |
| `PollLoop.CycleSendsFallback` | homework.py:124-128 | an empty list or a falsy first record such as `{}` sends the fallback message |
| `PollLoop.CycleAfterFailedRequest` | homework.py:53-71 | a non-200 reply or a transport failure sends nothing; it attempts the fetch alert and then the validator's alert with `TypeError`, or stops at the fetch alert's own exception |
| `PollLoop.CycleOnMalformedBody` | homework.py:65-81 | a malformed 200 body sends nothing; a non-dict or a dict without `homeworks` attempts one alert, a non-list `homeworks` none |
| `PollLoop.CycleSentIgnoresAlertFault` | homework.py:57-76 | whether the alert calls raise never changes what a cycle sends |
| `PollLoop.CycleExamples` | homework.py:122-129 | `{"homeworks": []}` sends the fallback, and one approved homework "X" sends its exact notification |
| `PollLoop.RunBot` | homework.py:112-135 | exits before the loop exactly when a secret is missing; otherwise runs one cycle per request outcome, each with `from_date` 0, each the same function of its own outcome, each followed by a sleep of 600 seconds |

## Left out

- The HTTP request and JSON decoding (homework.py:50-54): network I/O, taken as the abstract `FetchOutcome`; floating-point numbers in a body are not part of `Json`.
- An exception from `requests.get` or `response.json()` that is not a `RequestException` (with requests before 2.27, `json.JSONDecodeError` for a 200 body that is not JSON): it would leave `get_api_answer` without an alert and end the cycle in the logged failure; `FetchOutcome` has no case for it.
- The messaging library: the alert calls are recorded by text and their behaviour is the parameter `alertFault`; the regular `send_message` (homework.py:103-109) is recorded as the message handed to the chat, and its swallowing of `TelegramError` changes only logging.
- An exception other than `TelegramError` from the regular send, which would also end in the logged failure: it comes from code outside the model.
- Logging, `print` and the log-file setup (homework.py:28-37 and throughout): side effects with no decision in them; only the line the cycle's handler logs is modelled, as `CycleReport.logged`.
- Environment loading and the request headers (homework.py:10-18): the secrets are the inputs of `CheckTokens`.
- `sys.exit`, `time.sleep` and the unbounded `while True` (homework.py:116, 121, 135): `RunBot` runs over a finite sequence of outcomes and records the exit and each sleep's length instead.
- RunBot: the construction of the bot client (homework.py:118) sits outside the `try` and is assumed to succeed; a library that rejects a malformed token there would end `main` before the loop although `check_tokens` returned true, which the model does not capture.
- Display: a `homework_name` that is a list or a dict is printed by Python with `repr`, which depends on the insertion order of dict keys that the model's `map` does not keep; the model inserts the placeholder `[...]` or `{...}` instead.
- `ErrorText` renders a `KeyError` key quoted with single quotes; Python chooses double quotes for a key that contains a single quote, which the keys raised here never do.
