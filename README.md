# Timed arithmetic quiz: the round core

This project models the core of a small web quiz. A player picks a difficulty (`easy`,
`medium` or `hard`) and answers multiplication and division questions against a countdown.
Nothing happens when the time runs out. The first visit to that difficulty's game page after
the limit saves the running totals as one history row and ends the round. A round that is
never visited again after its limit is never saved.

The model has these parts:

- **Difficulty catalog** (`Catalog`): a fixed map from a name to a profile. A profile holds
  a time limit in seconds, the allowed operations and an inclusive operand range.
- **Question generator** (`Questions`): `Generate` turns one random draw into a question
  (its text and the expected answer). The draw is an operation and two operands. A
  division by zero asks for a retry instead. `GenerateQuestion` uses a sequence of draws
  in order, which models the generator calling itself again after a retry. The question
  text is written the way the source's f-strings write it (`Decimal`). `ParseQuestion`
  reads the text back, and `Value` gives the exact value of the expression it shows.
- **Round state machine** (`Round`): a visit to the game page is a pure function `Step`
  on a state of three parts:
  - the session map from difficulty to the second its round started;
  - one process-wide tally of correct answers and attempts;
  - the history store, as a log that rows are only appended to.

  The store is persistent, so at start-up it already holds the rows of earlier runs.
  `Start(stored)` takes those rows as a parameter. The invariant `Round.Valid` puts no
  constraint on them. It constrains only the rows written since start-up.

  The lemmas beside `Step` state what one visit does. `Run` is a sequence of visits, and
  its lemmas state what holds across visits.
- **Mutable game object** (`Game.Game`): the handler's state as a class. It has a map
  field, two counters and a log, and the methods update them in place. Its constructor
  takes the rows the store already holds. `Play` is proved to produce exactly the state and
  outcome of `Step`.

Behaviour worth knowing:

- The expiry test is strict: a visit exactly `timeLimit` seconds after the start still
  continues, with 0 seconds remaining.
- An answer submitted after expiry is discarded.
- The totals are never reset. Each history row holds the totals since the process
  started, not since the round started. `RunExtends` states this. So does the part of
  `Round.Valid` that orders the rows written since start-up.
- A division question's text is `"{num1*num2} / {num2}"`, with no parentheses.
- A failing database commit is not handled; no error path exists for it.

## Model

| member | source | states |
|---|---|---|
| `Catalog.Difficulties` | app.py:22-26 | exactly the names easy, medium and hard; every profile has a positive limit, at least one operation and 1 <= low <= high; easy is multiplication only; the others allow division |
| `Decimal.IntToString` | app.py:41 | an integer's text is non-empty, holds only digits and a minus sign, starts with '-' exactly for negative numbers, and is canonical: no leading zero and no "-0" |
| `Decimal.IntRoundTrip` | app.py:41 | parsing the decimal text of any integer gives back that integer |
| `Decimal.ParseIsCanonical` | app.py:41 | any text the parser accepts is exactly the text of the integer it returns, so "04" is refused rather than read as 4 |
| `Questions.Render` | app.py:41-44 | the first blank of the text comes right after the first operand and opens the sign (" x " for a product, " / " for a quotient); the text before it and the text after the sign are exactly the canonical texts of the two operands |
| `Questions.RenderParses` | app.py:41-44 | the text of a product "a x b" or a quotient "n / d" reads back as the same expression and operands |
| `Questions.ParseRenders` | app.py:41-44 | any text that reads back as an expression is exactly the text of that expression, so text and expression determine each other |
| `Questions.ExactQuotient` | app.py:44-45 | for b != 0, (a*b) divided by b leaves no remainder and gives exactly a |
| `Questions.Generate` | app.py:40-47 | one draw asks for a retry iff it is a division with num2 = 0; a product expects num1*num2; a quotient expects the answer that times num2 gives the shown dividend num1*num2 |
| `Questions.MultiplicationQuestion` | app.py:40-42 | a multiplication draw always yields a question; its text shows exactly the two drawn operands as a product, and its answer is num1*num2 |
| `Questions.DivisionQuestion` | app.py:43-47 | a division draw yields a question iff num2 != 0; its text shows dividend num1*num2 over divisor num2; answer*divisor == dividend; the answer is the exact quotient |
| `Questions.AnswerIsShownValue` | app.py:40-48 | every emitted question's expected answer is the value of the expression its text shows |
| `Questions.WellFormedNeverRetries` | app.py:43-47 | with the operand range starting at 1 or above, no draw from the profile asks for a retry |
| `Questions.FirstEmitted` | app.py:43-47 | the index of the first draw that yields a question: every earlier draw retried, and the one at the index (if any) yields a question |
| `Questions.GenerateQuestion` | app.py:35-48 | the result is absent iff every draw retried; a present question is the one yielded by the first draw that did not retry; for a well-formed profile it is the first draw's question |
| `Questions.CatalogNeverRetries` | app.py:22-26 | under the configured catalog the zero-divisor retry branch is unreachable, so the first draw gives the question |
| `Round.Start` | app.py:28-32 | start-up has no sessions, zero totals and the rows the store already holds, all of which count as rows present at start-up; it satisfies the invariant |
| `Round.Score` | app.py:79-81 | attempts grow by exactly 1; correct answers grow by 1 iff the answer equals the expected one, otherwise stay unchanged; correct <= attempts is preserved |
| `Round.Step` | app.py:60-91 | a visit never changes the rows already in the store and keeps how many were there at start-up; a continuing visit reports the new totals and a time remaining >= 0 |
| `Round.UnknownChangesNothing` | app.py:61 | the outcome is UnknownDifficulty iff the name is not in the catalog, and then no session, total or history row changes |
| `Round.SessionStartKept` | app.py:63-65 | an existing session's start time is never changed; only the visited difficulty can gain a session; a newly created one starts at now |
| `Round.ExpiryStep` | app.py:67-72 | the round expires iff elapsed > limit (strict); on expiry exactly one row with the current totals is appended, only that difficulty's session is removed, and the totals are neither scored nor reset |
| `Round.ContinueStep` | app.py:74-91 | otherwise no row is written, the session is kept, the new totals are exactly `Score` of the old ones and the submission (unchanged without one), the question comes from the first draw, and time remaining = limit - elapsed >= 0 |
| `Round.ExpiryBoundary` | app.py:68-69 | a visit after exactly the time limit continues with 0 seconds left; one second later the round expires |
| `Round.StepKeepsValid` | app.py:60-91 | one visit preserves correct <= attempts, sessions only for catalog names, and, for the rows written since start-up, rows bounded by and ordered under the current totals |
| `Round.StepExtends` | app.py:60-91 | one visit never lowers the totals and only extends the history; the history grows, by exactly one row, iff the visit expired the round |
| `Round.RunKeepsValid` | app.py:60-91 | the invariant holds after any sequence of visits from a valid state |
| `Round.RunExtends` | app.py:60-91 | over any sequence of visits the old history is a prefix of the new one, at most one row is added per visit, and the totals never decrease |
| `Round.ReachableValid` | app.py:28-32 | from start-up with any stored rows, every reachable state satisfies the invariant, and the stored rows stay unchanged at the front of the store |
| `Round.EasyRound` | app.py:60-91 | an easy round after start-up with any stored rows: the first visit starts the session with 60 s left; a correct answer gives totals 1/1; a visit at 61 s expires it, leaving no session and appending one row easy 1/1 |
| `Game.Game.constructor` | app.py:28-32 | the game starts with no sessions, zero totals and the rows the store already holds |
| `Game.Game.SaveProgress` | app.py:109-116 | appends exactly one row with the difficulty and the current totals; nothing else changes; the invariant is kept |
| `Game.Game.RecordAnswer` | app.py:79-81 | updates the counters in place exactly as `Round.Score` says and keeps the invariant |
| `Game.Game.OpenSession` | app.py:63-65 | creates the missing session starting at now and leaves an existing one unchanged |
| `Game.Game.EndRound` | app.py:69-72 | saves one row with the current totals and deletes only that difficulty's session |
| `Game.Game.ContinueRound` | app.py:74-91 | scores the submission, if any, as `Round.Score` says and reports the first draw's question, the new totals and the time remaining |
| `Game.Game.ExpireVisit` | app.py:67-72 | the in-place expiry of an open round gives the state `Round.Step` gives for the visit and keeps the invariant |
| `Game.Game.ContinueVisit` | app.py:74-91 | the in-place continuation of an open round gives the state and outcome `Round.Step` gives for the visit and keeps the invariant |
| `Game.Game.Play` | app.py:60-91 | the in-place update of sessions, counters and history and the returned outcome equal `Round.Step`; it keeps the invariant; on expiry it deletes only that session and appends one row |

## Left out

- The web layer is not modelled: the routes `/`, `/end` and `/history`, the templates and
  the redirects (app.py:50-56, 85-106). `Play` returns an outcome instead of a page.
- The database is not modelled: the SQLAlchemy table and its set-up (app.py:8-19, 118-120).
  The store is the `log` sequence, and the rows it holds at start-up are a parameter. A
  row's auto-assigned `id` is its position in the log. A failing commit is not modelled.
- The timestamp a row gets from the database default is the visit's `now` in the model.
- The history listing `order_by(timestamp.desc())` (app.py:105) is not modelled.
- Random choices are parameters (a `Draw`). Each must come from the profile: a listed
  operation, and operands within its range.
- The clock is a parameter, in whole seconds. The source reads `datetime.now()` twice and
  measures float seconds. In the model one visit has one `now`, so a new session always
  has 0 seconds elapsed, and the time remaining is an integer.
- Form parsing with `int(...)` (app.py:76-77) is not modelled. A submission is an optional
  pair of integers, and the error for a non-integer field is not modelled.
- An unknown difficulty raises `KeyError` in the source (app.py:61). The model returns the
  `UnknownDifficulty` outcome instead.
- Operations are a two-value datatype. The source's retry for an operation name it does
  not know (app.py:46-47) therefore cannot arise.
- Questions.GenerateQuestion: the source retries by calling itself (app.py:47). If every
  draw retried, the recursion would stop at the interpreter's recursion limit with a
  `RecursionError`. The model uses a finite sequence of draws, and its `None` (every draw
  retried) stands for that error. Under the configured catalog the first draw always
  succeeds (`Questions.CatalogNeverRetries`).
- Concurrent requests on the shared globals are not modelled.
