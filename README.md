# Lookup API and credit bot: a Dafny model of its bookkeeping

The repository puts a small HTTP API (`app.py`) and a Telegram bot
(`bot.py`) in front of remote phone and Aadhaar lookup services. Almost all
of it is calls to those services. This model covers the three parts that
hold state or make decisions on their own:

- **The sliding-window rate limiter** (`rate_limit` over `request_tracker`)
  guards `/num` and `/aadhar`. For each request it prunes the client's
  timestamps that are 60 seconds old or older. It answers 429 when 30 or
  more remain. Otherwise it appends the request time. Module
  `RateLimiter`: the pure window functions `Prune` and `Record`, the class
  `Limiter` holding the map from client address to timestamps, and lemmas
  about whole runs of requests (`Replay`).
- **The parameter check of the two endpoints** keeps only the digit
  characters of the query parameter. It accepts a phone number with exactly
  10 digits and an Aadhaar number with exactly 12. An absent or empty
  parameter is rejected as missing. Module `QueryValidation`. Module
  `Endpoints` puts the limiter in front of this check, as the decorator
  does, so a request rejected with 400 has still used up a slot.
- **The bot's credit ledger** (`user_credits`). `/start` gives 5 credits to
  a user it has not seen. `/lookup` refuses a user other than the
  administrator who has no credits left, and does nothing when no number is
  given. In every other case it charges one credit to a user other than the
  administrator, whatever the remote call did. The exception is when a
  message to the user raises outside the handler that catches the remote
  call's errors: the "searching" notice before the `try` (bot.py:48) or the
  error message inside the `except` (bot.py:77). That exception ends the
  command before the deduction, so nothing is charged. Module `CreditLedger`: the
  pure steps `AfterStart` and `AfterLookup`, the class `Ledger`, and lemmas
  about runs of commands.

Each request and each command is modelled as one atomic step. Timestamps
are whole seconds (`int`), and the clock is not assumed to move forward.
The ordering results say so in their preconditions where they need it. The
administrator's id is a constructor parameter of `Ledger`. How the lookup
ended is a parameter of `Ledger.Lookup` (`LookupOutcome`). The three
outcomes of the remote call leave the same ledger. `ReplyFailed` stands for
a failed message at bot.py:48 or bot.py:77, and it leaves the ledger
unchanged.

On a denial the code still stores the pruned list (app.py:35-39).
`Record` and `Limiter.CheckAndRecord` do the same.

## Model

| member | source | states |
|---|---|---|
| RateLimiter.Prune | app.py:36-39 | the kept timestamps are exactly those of the input with `now - t < 60`, so one exactly 60 seconds old is dropped; the list never grows |
| RateLimiter.PruneConcat | app.py:36-39 | pruning is a filter: it distributes over concatenation, so it keeps order and multiplicity |
| RateLimiter.PruneAllRecent | app.py:36-39 | a list whose timestamps are all recent is kept whole |
| RateLimiter.PruneSorted | app.py:36-39 | pruning a sorted list gives a sorted list |
| RateLimiter.PruneLater | app.py:35-39 | pruning at time a and then at a later time b is the same as pruning once at b |
| RateLimiter.Record | app.py:35-52 | admitted iff fewer than 30 timestamps survive pruning; on admission the window is the pruned list plus `now`, on denial the pruned list without `now`; every kept timestamp is recent; a window of at most 30 stays at most 30; an empty history is always admitted with window `[now]` |
| RateLimiter.RecordSorted | app.py:36-52 | a sorted window with no timestamp later than `now` stays sorted and stays no later than `now` |
| RateLimiter.ExpiryFreesSlot | app.py:35-47 | once the oldest timestamp of a window of at most 30 is 60 seconds old, the next request is admitted |
| RateLimiter.Limiter.constructor | app.py:24 | the tracker starts empty, with every list within the limit |
| RateLimiter.Limiter.CheckAndRecord | app.py:28-54 | the decision and the client's new list are those of `Record` on its old list; every stored timestamp of the client is recent; a new client is admitted with `[now]`; every other client's entry is unchanged and no other entry appears; no list exceeds 30; sorted lists stay sorted when `now` is no earlier than any stored time |
| RateLimiter.Replay | app.py:28-54 | one decision per request; the final window never holds more than 30 timestamps nor more than the number of requests |
| RateLimiter.ReplayWindow | app.py:35-52 | for non-decreasing request times, the stored list is exactly the admitted request times still recent at the last request |
| RateLimiter.SlidingWindowBound | app.py:42-52 | for non-decreasing request times, at any request at most 30 admitted requests lie in the trailing 60-second window |
| RateLimiter.ShortRunAdmitted | app.py:42-52 | up to 30 requests from a fresh client are all admitted |
| RateLimiter.FullWindow | app.py:42-47 | 30 requests from a fresh client, sorted and inside one window, leave exactly those 30 timestamps stored, and a request still inside that window is denied |
| RateLimiter.Burst | app.py:35-52 | 30 requests inside a span shorter than 60 seconds are all admitted and the 31st inside that span is denied |
| QueryValidation.Digits | app.py:275 | the result holds only digits, never more characters than the input, and exactly the digit characters of the input |
| QueryValidation.DigitsConcat | app.py:275 | keeping digits distributes over concatenation, so it keeps order and multiplicity |
| QueryValidation.DigitsOfDigitString | app.py:275 | a string of digits is left unchanged |
| QueryValidation.DigitsIdempotent | app.py:275 | normalising twice is the same as normalising once |
| QueryValidation.DigitsSkipNonDigit | app.py:275 | inserting a non-digit anywhere does not change the normalised form |
| QueryValidation.Validate | app.py:264-281 | missing iff the parameter is absent or empty; accepted iff the parameter is present and has exactly 10 (phone) or 12 (Aadhaar) digits; the accepted number is those digits |
| QueryValidation.ValidateDigitString | app.py:314-331 | a parameter made only of digits is accepted iff it has the required length, and then unchanged |
| QueryValidation.ValidateSkipsNonDigit | app.py:324-331 | formatting characters in a non-empty parameter do not change the verdict |
| Endpoints.HandleLookup | app.py:260-281 | the limiter runs first and its state changes as `CheckAndRecord` says; the response is 429 iff denied; otherwise the request's time is recorded and the response is the parameter check's verdict |
| CreditLedger.AfterStart | bot.py:29-32 | the user gets an entry; an existing entry is unchanged; no user's balance (missing counting as 5) changes; non-negative ledgers stay non-negative |
| CreditLedger.AfterLookup | bot.py:39-79 | the caller's balance drops by 1 exactly when the lookup is charged (not refused, a number given, not the administrator, and no failed reply at bot.py:48 or 77 before the deduction), and otherwise the ledger is unchanged; a charged balance stays non-negative; other users' entries are unchanged; non-negative ledgers stay non-negative |
| CreditLedger.AfterLookupIgnoresRemote | bot.py:49-79 | two outcomes of the remote call (answered, not responding, or an exception caught at bot.py:76) leave the same ledger |
| CreditLedger.Ledger.constructor | bot.py:24 | the ledger starts empty, with the given administrator |
| CreditLedger.Ledger.Start | bot.py:29-32 | the ledger becomes `AfterStart` of the old one, and the user's entry then holds their old balance or 5 |
| CreditLedger.Ledger.Lookup | bot.py:39-79 | refused iff a non-admin has balance `<= 0`; "no number" iff not refused and no argument; otherwise the outcome is passed through; the ledger becomes `AfterLookup` of the old one, so it is not charged when a reply failed before the deduction; the administrator is never refused nor charged |
| CreditLedger.Run | bot.py:41-43 | over any sequence of commands, a non-negative ledger stays non-negative |
| CreditLedger.CreditConservation | bot.py:78-79 | for any non-admin, the final balance plus the number of charged lookups equals the starting balance; if the starting balance is non-negative, so is the final one |
| CreditLedger.FreshUserLimit | bot.py:41-43 | a user the bot has never seen is charged for at most 5 lookups, whatever other users do |
| CreditLedger.AdminBalanceFixed | bot.py:78 | the administrator's balance never changes over any sequence of commands |

## Left out

- The Flask routing, the JSON bodies of the responses and the error handlers (app.py:192-258, 360-384). The model stops at the response kind (`Endpoints.Response`).
- The browser session, the sign-up with its single retry, and the remote lookup (`create_session`, `signup_user`, `perform_lookup`, app.py:61-104, 166-190). These are network I/O. `Endpoints.HandleLookup` stops where the remote call would begin.
- The reshaping of the remote JSON answer (`extract_clean`, app.py:106-164). It depends on the shape of an external JSON document and on the wall clock.
- Password and identity generation (`gen_pass`, the Faker identities, app.py:57-59, 82-84). These are randomness.
- The HTTP call and the reply texts of the bot (bot.py:33-37, 47-77, 80). They reach the ledger only through the `LookupOutcome` parameter. The three outcomes of the remote call leave the same ledger, because the handler at bot.py:76 catches the remote call's errors before the deduction. `ReplyFailed` stands for a failed message at bot.py:48 or bot.py:77, which ends the command uncharged. A failure of the messages at bot.py:33-37, 42, 45 or 80 is not modelled, because each of those comes after the ledger update or on a path that makes none.
- Concurrency. Each request and each command is one atomic step. With gunicorn's two worker processes (gunicorn_config.py:8), each process has its own `request_tracker`, and the check-then-append in `rate_limit` can race. So the real limit per client can be higher than 30. The bot's Flask thread and polling loop (bot.py:113-117) are not modelled either.
- Stale client entries are never evicted, so `request_tracker` grows by one entry per address ever seen. The model keeps this behaviour and proves nothing about memory.
- QueryValidation.IsDigit: accepts only ASCII `'0'..'9'`, while `str.isdigit` also accepts other Unicode digits.
- RateLimiter.Recent: timestamps are whole seconds, while `time.time()` returns a float, so sub-second differences are not modelled.
- gunicorn_config.py holds only deployment constants.
