# LangGraph-Game turn engine, in Dafny

This project models the turn-by-turn state machine of the LangGraph-Game server, together with its
two games.

- **The session.** `GameState` is the record the browser sends with every request and gets back
  with every response. It holds:
  - the game chosen;
  - a number-game and a word-game sub-record;
  - two game counters;
  - the last input;
  - the lines to show.

  The same record as a mutable dictionary is the class `GameStates.Session`. Each game node and
  HTTP handler is a method that overwrites the session's fields in place. Each method is proved
  equal to a pure function of the old record: `After…` for the nodes, `…Response` for the handlers.
  The properties the source promises are stated on those functions and in lemmas about them.
- **The number game** (`choose_number`, `guess_number`) is a binary search over `[min, max]`. It is
  driven by the player's y/n answers to "is your number greater than mid?".
- **The word game** (`init_word_game_state`, `append_question_prompt`, `choose_word`,
  `get_question`, `ask_questions`, `guess_word`) asks up to five yes/no/maybe questions, then makes
  one guess.
  - The questions come from a language model, with a de-duplicating retry of at most three more
    calls and a fixed fallback question.
  - The guess also comes from the model, with "apple" as the fallback.
- **The selector and exit nodes.** `game_selector` dispatches on the game chosen and on the input
  token. `exit_game` builds the end-of-session summary.
- **The HTTP handlers.** The number-game handlers are `/game/start`, `/game/number` and
  `/game/exit`. The word-game handlers are `/game/word` and its own `/game/exit`.
  - `/game/number` and `/game/word` are each a priority-ordered decision over three things: the
    previous output, the sub-record, and the trimmed, lower-cased input.
  - `/game/start` only trims the input, without lower-casing it. It decides on the input alone and
    reads neither the output nor a sub-record.
  - The two `/game/exit` handlers make no decision: they run `exit_game`, then reset both counters.

Two things the system calls but whose code is not part of this model become parameters:

- The language model is `WordGame.LanguageModel`. The k-th call of a step with a given prompt
  replies `Some(text)`, or `None` when the call raises.
- The compiled graph's `invoke` is `NumberGameApi.Graph`. It maps a record to the record it ends
  in, or to `None` when it raises.

Modules follow the source files:

| module | source file |
|---|---|
| `Wrappers`, `Text` | Python's `Optional`, `strip`, `lower`, `in`, `str(int)`, `join` |
| `GameStates` | `langgraph_core/game_states/game_state.py` |
| `ExitNode` | `langgraph_core/nodes/exit.py` |
| `NumberGame` | `langgraph_core/nodes/number_game.py` |
| `WordGame` | `langgraph_core/nodes/word_game.py` |
| `Selector` | `langgraph_core/nodes/selector.py` |
| `NumberGameApi` | `APIs/number_game/ng_api.py` |
| `WordGameApi` | `APIs/word_game/wg_api.py` |

Behaviours of the source that the model keeps as written:

- On the question path of `/game/word`, the player's answer is never recorded. Only `guess_word`
  appends an answer, so a full game records only the answer given after the fifth question. The
  guess prompt's transcript pairs that answer with the first question
  (`WordGameApi.SilentWordGameOutcome`).
- When the answer to the last question is "yes" or "no", the step that triggers `guess_word` sets
  `game_choice` to "retry" or to no game. The game does not end there: the following `/game/word`
  step chooses the word game again (wg_api.py:30-31) and answers the verdict on the guess
  (`WordGameApi.VerdictAnswered`).
- `guess_number` has its own play-again branch, but `/game/number` never reaches it. The handler
  first runs the same test on the same output and, when it holds, returns through the graph
  (ng_api.py:90-97 against number_game.py:26-30). So `guess_number` is called only on output that
  is not a play-again prompt.
- The two play-again tests are case-insensitive: "play again" and "play another game". The
  verdict test is case-sensitive: "My guess is" and "Was I correct?".

## Model

| member | source | states |
|---|---|---|
| `GameStates.CreateInitialState` | langgraph_core/game_states/game_state.py:23-35 | a new session has no game chosen, no sub-record, both counters at 0, no output and an empty input |
| `GameStates.AsksToPlayAgain` | APIs/number_game/ng_api.py:90-92 | the play-again test of both step handlers and of `guess_number`: some line of the output, lower-cased, contains "play again" or "play another game" |
| `GameStates.AsksToPlayAgainConcat` | APIs/word_game/wg_api.py:19-21 | the test is an `any` over the lines: output asks to play again exactly when one of its parts does, in both directions |
| `GameStates.Session.Initial` | langgraph_core/game_states/game_state.py:23-35 | a new session object holds exactly the initial record |
| `GameStates.NoLetterNoPlayAgain` | langgraph_core/nodes/number_game.py:26-28 | output in which no line holds a letter of both play-again phrases, in either case, is never read as a play-again prompt |
| `Text.TrimSpec` | APIs/number_game/ng_api.py:19 | `strip()` keeps an infix of the input, removes only whitespace from both ends, and leaves no whitespace at either end |
| `Text.NormaliseIdempotent` | langgraph_core/nodes/word_game.py:79 | re-stripping and re-lowering an input the handler already normalised changes nothing, so `guess_word` sees the handler's input |
| `Text.ContainsSpec` | langgraph_core/nodes/number_game.py:27 | Python's `sub in s` holds exactly when `sub` occurs in `s` at some position |
| `Text.NatToStringInjective` | langgraph_core/nodes/exit.py:13 | different counts are printed as different decimal strings |
| `ExitNode.AfterExit` | langgraph_core/nodes/exit.py:4-16 | the output becomes exactly "Thanks for playing!" and the summary of the two counts (each 0 when missing, number games first); no other key changes |
| `ExitNode.ExitGame` | langgraph_core/nodes/exit.py:4-16 | writing the summary into the session gives the record `AfterExit` describes |
| `ExitNode.ExitIdempotent` | langgraph_core/nodes/exit.py:8-15 | exiting twice gives the same record as exiting once |
| `ExitNode.SummaryLineDeterminesCounts` | langgraph_core/nodes/exit.py:8-13 | the summary line determines both counts it was built from, in order |
| `NumberGame.AfterChooseNumber` | langgraph_core/nodes/number_game.py:4-17 | the output is the invitation line; a missing sub-record becomes `[1, 50]`, guess 0, guessing; an existing one only has `next_step` set to guessing; nothing else changes |
| `NumberGame.ChooseNumber` | langgraph_core/nodes/number_game.py:4-17 | the in-place update gives the record `AfterChooseNumber` describes |
| `NumberGame.Narrow` | langgraph_core/nodes/number_game.py:44-51 | "y" sets `min` to `mid + 1`, "n" sets `max` to `mid`, any other input keeps the range; guess and step untouched |
| `NumberGame.AfterGuessNumber` | langgraph_core/nodes/number_game.py:20-66 | raises exactly on a null sub-record. After a play-again prompt: retry on "yes"/"y", otherwise no game; the sub-record is dropped, the "done" lines are shown and the counter is unchanged. Otherwise the range is narrowed. A closed range announces `min`, counts one more game and marks the number guessed. An open range asks about its midpoint and keeps the counter. |
| `NumberGame.GuessNumber` | langgraph_core/nodes/number_game.py:20-66 | the in-place step reports failure exactly when `AfterGuessNumber` raises and otherwise gives its record |
| `NumberGame.QuestionLineDoesNotAsk` | langgraph_core/nodes/number_game.py:60-62 | the midpoint question is never read as a play-again prompt |
| `NumberGame.GuessedLinesAsk` | langgraph_core/nodes/number_game.py:57-58 | the announcement's second line is read as a play-again prompt by the next step |
| `NumberGame.NarrowShrinks` | langgraph_core/nodes/number_game.py:44-49 | a y/n answer to an open range keeps `min <= max` and at least halves the width, which strictly decreases |
| `NumberGame.NarrowKeepsSecret` | langgraph_core/nodes/number_game.py:44-49 | a truthful answer ("y" exactly when the secret is above `mid`) keeps the secret in the range |
| `NumberGame.SearchFindsSecret` | langgraph_core/nodes/number_game.py:44-54 | truthful answers close a range of width below 2^k that holds the secret on exactly the secret within k answers |
| `NumberGame.FreshRangeClosesWithinSix` | langgraph_core/nodes/number_game.py:44-54 | from `[1, 50]`, six truthful answers always pin down the player's number |
| `WordGame.InitWordGameState` | langgraph_core/nodes/word_game.py:8-18 | the six candidate words, a budget of five questions, index 0, no questions, answers or used questions, no guess, and the `word_list_shown` flag given; the length invariant holds |
| `WordGame.AppendQuestionPrompt` | langgraph_core/nodes/word_game.py:20-22 | exactly two lines are appended, "Question {index+1}: {q}" and the answer prompt, and the earlier lines are kept |
| `WordGame.AfterChooseWord` | langgraph_core/nodes/word_game.py:24-31 | shows the word list, installs a fresh sub-record with the list marked shown, and changes nothing else |
| `WordGame.ChooseWord` | langgraph_core/nodes/word_game.py:24-31 | the in-place update gives the record `AfterChooseWord` describes |
| `WordGame.RetryQuestion` | langgraph_core/nodes/word_game.py:49-51 | the retry loop from a given attempt: while the stripped reply is a used question and fewer than three retries were made, ask again; `None` when a call raises |
| `WordGame.SettledQuestion` | langgraph_core/nodes/word_game.py:42-51 | the first call's stripped reply, then the retry loop from attempt 0; `None` when a call raises |
| `WordGame.RetryUsesFirstCalls` | langgraph_core/nodes/word_game.py:47-51 | the retry loop from any attempt depends only on the replies to calls 0 to 3 |
| `WordGame.RetrySettles` | langgraph_core/nodes/word_game.py:49-51 | when no call raises, the retry loop ends on some question |
| `WordGame.RetryRepeatsOnlyWhenExhausted` | langgraph_core/nodes/word_game.py:49-51 | the loop ends on a used question only when it started on one and every later reply up to the third retry was a used question too |
| `WordGame.AfterGetQuestion` | langgraph_core/nodes/word_game.py:33-57 | when a model call raised, the question is "Is it something you use daily?" and the used questions are unchanged; otherwise the settled question is returned and added to them; nothing else in the sub-record changes |
| `WordGame.GetQuestion` | langgraph_core/nodes/word_game.py:33-57 | the retry loop, with its attempt counter, returns the question and leaves the sub-record that `AfterGetQuestion` describes, touching no other key |
| `WordGame.GetQuestionAtMostFourCalls` | langgraph_core/nodes/word_game.py:42-51 | two models that agree on the first four calls give the same question and sub-record, so at most four calls are made |
| `WordGame.GetQuestionRecordsQuestion` | langgraph_core/nodes/word_game.py:42-54 | when the model never fails, the returned question is in the used questions afterwards |
| `WordGame.GetQuestionRepeatsOnlyAfterFourRepeats` | langgraph_core/nodes/word_game.py:47-53 | a used question is returned only when all four replies were used questions |
| `WordGame.AfterAskQuestions` | langgraph_core/nodes/word_game.py:60-74 | raises exactly on a null sub-record. Under budget it appends exactly one question, advances the index by one and shows that question's two lines. Over budget the sub-record is unchanged and the output is emptied. Answers are never touched, and the invariant (no more answers than questions, as many questions as the index, the index within the budget) is preserved. |
| `WordGame.AskQuestions` | langgraph_core/nodes/word_game.py:60-74 | the in-place step reports failure exactly when `AfterAskQuestions` raises and otherwise gives its record |
| `WordGame.RecordAnswer` | langgraph_core/nodes/word_game.py:81-83 | a non-empty input is appended to the answers only while a question is unanswered; otherwise the answers are unchanged; the length invariant is preserved |
| `WordGame.QaPairs` | langgraph_core/nodes/word_game.py:86-90 | one line per answered question, as many as the shorter of questions and answers, the i-th pairing question i with answer i as "Q{i+1}: {q} A: {a}" |
| `WordGame.ModelGuess` | langgraph_core/nodes/word_game.py:94-102 | the guess: the stripped reply to the one guess prompt, or "apple" when the call raises |
| `WordGame.ModelGuessSpec` | langgraph_core/nodes/word_game.py:94-102 | the guess is "apple" when the call raises; otherwise it is the reply with only the surrounding whitespace removed, and neither starts nor ends with whitespace |
| `WordGame.ModelGuessOneCall` | langgraph_core/nodes/word_game.py:94-97 | the guess depends only on the reply to the one call made with the guess prompt |
| `WordGame.AfterGuessWord` | langgraph_core/nodes/word_game.py:77-113 | raises exactly on a null sub-record. Otherwise it records the pending answer and stores the model's guess, or "apple" when the call raised. It counts one more word game and shows "My guess is: \*\*{guess}\*\*" and "Was I correct? (yes/no)". It changes `game_choice` only on "yes" (retry) or "no" (none). The invariant is kept. |
| `WordGame.GuessWord` | langgraph_core/nodes/word_game.py:77-113 | the in-place step reports failure exactly when `AfterGuessWord` raises and otherwise gives its record |
| `Selector.AfterGameSelector` | langgraph_core/nodes/selector.py:5-63 | counters and input are never touched, and the output is replaced only by a non-empty list. A game in progress is returned unchanged, or only gets a "Continuing …" line when the output is empty. Retry clears the choice and says "Returning to game selection…" for "yes"/"y", "Thanks for playing! Goodbye!" otherwise. "1" installs `[1, 50]` at start and drops the word game. "2" installs a fresh word game and drops the number game. Empty input is `exit_game`. Anything else clears the choice and reports an invalid choice. |
| `Selector.GameSelector` | langgraph_core/nodes/selector.py:5-63 | the in-place dispatch gives the record `AfterGameSelector` describes |
| `NumberGameApi.RestoreCount` | APIs/number_game/ng_api.py:67-71 | a counter the graph's result holds is kept; a missing one is restored only when the saved value is positive |
| `NumberGameApi.StartGameResponse` | APIs/number_game/ng_api.py:16-82 | on the trimmed input: "1" starts the number game on `[1, 50]` with its first question; "2" starts a fresh word game with the word list shown; both write the counters back. Other input goes through the graph: a failure there clears the choice and asks for a valid option, with the counters written back; a result keeps its own counters, or gets missing ones restored when positive. A positive counter is never lost. |
| `NumberGameApi.StartGame` | APIs/number_game/ng_api.py:16-82 | the handler answers `StartGameResponse`; the request record ends as the response, or, when the graph answered, only gained the stripped input |
| `NumberGameApi.StartNumberAsksFirstQuestion` | APIs/number_game/ng_api.py:33 | the opening line of "1" is the invitation followed by exactly the question `guess_number` asks of `[1, 50]`, since 25 is `(1 + 50) // 2` |
| `NumberGameApi.StartNumberLineDoesNotAsk` | APIs/number_game/ng_api.py:33 | the opening line of "1" is not read as a play-again prompt |
| `NumberGameApi.StartWordIsChooseWord` | APIs/number_game/ng_api.py:40-61 | the opening of "2" is what `choose_word` produces, with the word game chosen and the counters written back |
| `NumberGameApi.NumberGameStepResponse` | APIs/number_game/ng_api.py:85-115 | after a play-again prompt, the request goes to the graph as a retry with the normalised input. Otherwise the number game is chosen and `guess_number` runs; a null sub-record gives the two "trouble" lines. The game stays chosen, the word game is untouched, and the counter grows by at most one. |
| `NumberGameApi.NumberGameStep` | APIs/number_game/ng_api.py:85-115 | the handler answers `NumberGameStepResponse`; off the play-again path the response is the request record itself |
| `NumberGameApi.TruthfulStep` | APIs/number_game/ng_api.py:99-106 | one truthful answer through the handler either announces the secret and counts the game, or shows the next midpoint question with the counter unchanged |
| `NumberGameApi.PlayTruthfullyAnnouncesSecret` | APIs/number_game/ng_api.py:85-115 | truthful answers through `/game/number` to an open range of width below 2^steps that holds the secret: within `steps` answers the secret is announced and one more number game is counted, with the word game untouched |
| `NumberGameApi.StartThenSixAnswersFindNumber` | APIs/number_game/ng_api.py:25-39 | after "1" at `/game/start`, six truthful answers at `/game/number` announce any number in `[1, 50]` and count one more game |
| `NumberGameApi.AnnouncementLeadsToRetry` | APIs/number_game/ng_api.py:90-97 | once the number is announced, the next answer goes to the graph as a retry, whatever it is |
| `NumberGameApi.AfterExitEndpoint` | APIs/number_game/ng_api.py:117-125 | the summary of the counts as they were, then both counters set to 0; nothing else changes |
| `NumberGameApi.ExitGameEndpoint` | APIs/number_game/ng_api.py:117-125 | the handler answers the request record after `exit_game` and the reset |
| `NumberGameApi.ExitEndpointReportsCounts` | APIs/number_game/ng_api.py:117-125 | the summary the exit endpoint prints names the request's counts, not the reset ones |
| `WordGameApi.WordGameStepResponse` | APIs/word_game/wg_api.py:14-83 | priority dispatch. (1) A play-again prompt goes to the graph as a retry. (2) A null sub-record fails: the failure handler answers a verdict or shows the two "trouble" lines. (3) A fresh game asks. (4) A verdict is answered. (5) A spent budget guesses. (6) Otherwise it asks. Off (1), the number game and its counter are untouched, the word counter grows by at most one, and the word game stays chosen except for "yes"/"no" at the guess. The invariant is kept, the index never goes back, and only the guess step records an answer. |
| `WordGameApi.WordGameStep` | APIs/word_game/wg_api.py:14-83 | the handler answers `WordGameStepResponse`; off the play-again path the response is the request record itself |
| `WordGameApi.RespondingToGuess` | APIs/word_game/wg_api.py:38-39 | the verdict test, used in the try branch and again in the except branch (wg_api.py:63-64): the output has a line containing "My guess is" and a line containing "Was I correct?", case-sensitively |
| `WordGameApi.ExitGameEndpoint` | APIs/word_game/wg_api.py:86-94 | the handler answers the request record after `exit_game` and the reset of both counters |
| `WordGameApi.GuessLinesAwaitVerdict` | APIs/word_game/wg_api.py:38-39 | the guess display contains both "My guess is" and "Was I correct?", so the next step answers the verdict |
| `WordGameApi.VerdictAnswered` | APIs/word_game/wg_api.py:38-51 | after the guess, the next step shows "Yay! I guessed right!" for "yes"/"y", the apology otherwise, then "Would you like to play again?", changing only the input and the choice; that prompt sends the following step to the graph |
| `WordGameApi.FallbackLinesDoNotAsk` | APIs/word_game/wg_api.py:19-23 | the fallback question's lines are not read as a play-again prompt |
| `WordGameApi.FallbackLinesAreNoVerdict` | APIs/word_game/wg_api.py:38-39 | the fallback question's lines are not read as a verdict prompt |
| `WordGameApi.SilentQuestionStep` | APIs/word_game/wg_api.py:53-58 | with a model whose every call raises, a question step asks the fallback question and records no answer |
| `WordGameApi.FallbacksAskedShape` | langgraph_core/nodes/word_game.py:67-73 | after n fallback steps, the fallback question has been appended n times, the index has advanced by n, the last step's lines are shown, and answers and counters are as they were |
| `WordGameApi.SilentQuestionsUntilBudget` | APIs/word_game/wg_api.py:53-58 | with a silent model, a game with questions left asks the fallback question at every step until the budget is spent |
| `WordGameApi.SilentGuessStep` | APIs/word_game/wg_api.py:53-56 | with a silent model, the step after the last fallback question guesses "apple", records the pending answer and counts one more word game |
| `WordGameApi.SilentWordGamePlay` | APIs/word_game/wg_api.py:14-58 | with a silent model, five answers to a fresh word game get the fallback questions and the sixth gets the fallback guess |
| `WordGameApi.SilentWordGameOutcome` | langgraph_core/nodes/word_game.py:81-108 | in that game only the sixth answer is recorded, and the transcript pairs it with the first question; the guess is "apple" and one more word game is counted |
| `WordGameApi.SilentModelWordGame` | APIs/word_game/wg_api.py:14-58 | a whole word game against a silent model: five fallback questions, then the guess "apple" with only the last answer recorded and one more word game counted |
| `WordGameApi.StartWordOpensFreshGame` | APIs/number_game/ng_api.py:40-61 | "2" at `/game/start` opens a fresh word game whose output is not a play-again prompt, with the word counter kept |
| `WordGameApi.PlayWordGamePrefix` | APIs/word_game/wg_api.py:14-58 | playing two runs of inputs one after the other is playing their concatenation |

## Left out

- Missing sub-record keys are not modelled. A sub-record key that is present but null is modelled,
  as `None`. Sessions made by `create_initial_state` always carry every key. A missing key would
  differ from a null one in four places:
  - `guess_number` (number_game.py:21) would read `{}` and play on the default range `[1, 50]` instead of raising. It would store
    that sub-record only after a "y" or "n".
  - `ask_questions` (word_game.py:61) would create a default sub-record instead of raising.
  - `guess_word` (word_game.py:78) would read `{}`. With empty input it would then store "apple" in
    that local dictionary, count one more word game and show the guess, instead of raising.
  - `/game/word` (wg_api.py:33) would take the fresh-game path into `ask_questions`, instead of
    raising and answering with the verdict reply or the "trouble" lines.

  A missing counter, input or output key is modelled: it reads as 0, "" and [].
- `Text.Lower` maps only the ASCII capitals. Python's `lower()` also maps other Unicode letters.
  None of the fixed strings compared here contains any.
- The language model's client, the prompt template text and the `.content` access are not
  modelled. A prompt is the tuple of its template arguments (`WordGame.Prompt`), and a call is the
  `LanguageModel` parameter, which gives the reply's text. The `.strip()` applied to every reply is
  modelled, as `Text.Trim`.
- The compiled LangGraph graph is not modelled. Its wiring, its edge keys and the library that runs
  it are not part of this model. `invoke` is the `Graph` parameter, assumed to work on its own copy
  of the record.
- Python exception mechanics are reduced to "the call failed". The model keeps the fallback branch
  each failure leads to, and `None` where a failure leaves the handler.
- The error message that the except branches of `/game/number` and `/game/word` print to the
  server console (ng_api.py:109, wg_api.py:61) is not modelled. It changes no state and no
  response.
- Aliasing between the request record and the record the graph returns is not modelled.
- JSON serialisation of `asked_set` and pydantic validation are not modelled.
- The FastAPI routing, the CORS setup, the Streamlit UI and the console drafts of the game are not
  modelled.
- `WordGameApi.SilentModelWordGame`: the whole game from "2" at `/game/start` is stated in two
  parts. `WordGameApi.StartWordOpensFreshGame` covers the opening and `SilentModelWordGame` the play
  from the opened game. The ensures of `StartWordOpensFreshGame` give exactly the record that the
  requires of `SilentModelWordGame` ask for, so the two compose into the whole game.
- `NumberGameApi.PlayTruthfullyAnnouncesSecret` starts from a record whose output is the question
  about its own range, or the opening line of "1". These are the two outputs through which a game is
  played: `StartThenSixAnswersFindNumber` starts from the second, and `TruthfulStep` shows that each
  open step leads to the first. It is not stated for an arbitrary output that is not a play-again
  prompt.
