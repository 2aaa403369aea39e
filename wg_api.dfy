/**
 * The HTTP handlers of the word game: `/game/word`, a priority-ordered dispatch over the previous
 * output, the sub-state and the normalised input, and its copy of `/game/exit`.
 */
module WordGameApi {
  import opened Wrappers
  import opened Text
  import opened GameStates
  import opened ExitNode
  import opened NumberGame
  import opened WordGame
  import opened NumberGameApi

  const WordTroubleLines := ["I'm having trouble with the word game at the moment.",
                             "Please try again or select a different game."]
  const RightGuessLine := "Yay! I guessed right!"
  const WrongGuessLine := "I'm sorry I couldn't guess your word."

  /** Some earlier line holds "My guess is" and some holds "Was I correct?" (both compared case-sensitively). */
  predicate RespondingToGuess(messages: seq<string>) {
    && (exists i :: 0 <= i < |messages| && Contains(messages[i], "My guess is"))
    && (exists i :: 0 <= i < |messages| && Contains(messages[i], "Was I correct?"))
  }

  /** The reply to the player's verdict on the guess, followed by the play-again prompt. */
  function GuessReply(input: string): seq<string> {
    [if IsYes(Lower(input)) then RightGuessLine else WrongGuessLine, PlayAgainLine]
  }

  /** No question has been asked in this word game yet. */
  predicate FreshWordGame(wg: WordGameAgent) {
    wg.questionIndex == 0 && wg.questions == []
  }

  /** The step goes to `guess_word`: no play-again prompt, not fresh, not a verdict, and the budget spent. */
  predicate GuessRoute(s: GameState) {
    && !AsksToPlayAgain(s.messages) && s.wordGame.Some?
    && !FreshWordGame(s.wordGame.value) && !RespondingToGuess(s.messages)
    && s.wordGame.value.questionIndex >= s.wordGame.value.maxQuestions
  }

  /**
   * The response of `word_game_step`, or `None` when it raises. In priority order: a play-again prompt
   * hands a retry to the graph; a null sub-state fails and the failure handler replies to a verdict or
   * reports trouble; a fresh game asks its first question; a verdict on the guess is answered; a spent
   * budget leads to the guess; otherwise the next question is asked.
   */
  function WordGameStepResponse(s: GameState, rawInput: string, graph: Graph, ask: LanguageModel): (r: Option<GameState>)
    ensures var input := Lower(Trim(rawInput));
      AsksToPlayAgain(s.messages) ==> r == graph(s.(gameChoice := Some(Retry), userInput := input))
    ensures var input := Lower(Trim(rawInput));
      var s1 := s.(userInput := input, gameChoice := Some(WordGame));
      !AsksToPlayAgain(s.messages) ==>
        && r.Some?
        && (s.wordGame.None? ==>
              r.value == s1.(messages := if RespondingToGuess(s.messages) then GuessReply(input) else WordTroubleLines))
        && (s.wordGame.Some? && FreshWordGame(s.wordGame.value) ==> r == AfterAskQuestions(s1, ask))
        && (s.wordGame.Some? && !FreshWordGame(s.wordGame.value) && RespondingToGuess(s.messages) ==>
              r.value == s1.(messages := GuessReply(input)))
        && (GuessRoute(s) ==> r == AfterGuessWord(s1, ask))
        && ((s.wordGame.Some? && !FreshWordGame(s.wordGame.value) && !RespondingToGuess(s.messages)
               && s.wordGame.value.questionIndex < s.wordGame.value.maxQuestions) ==> r == AfterAskQuestions(s1, ask))
    // Off the play-again path the number game and its counter are never touched, and the word-game
    // counter grows by at most one.
    ensures !AsksToPlayAgain(s.messages) ==>
      && r.value.numberGame == s.numberGame && r.value.numberGameCount == s.numberGameCount
      && Count(s.wordGameCount) <= Count(r.value.wordGameCount) <= Count(s.wordGameCount) + 1
    // The word game stays chosen, except that the guess step itself ends it on a "yes" or "no".
    ensures var input := Lower(Trim(rawInput));
      !AsksToPlayAgain(s.messages) ==>
        r.value.gameChoice == (if GuessRoute(s) && input == "yes" then Some(Retry)
                               else if GuessRoute(s) && input == "no" then None
                               else Some(WordGame))
    // The sub-state invariant is kept, the question index never goes back, and an answer is recorded
    // only by the guess step.
    ensures !AsksToPlayAgain(s.messages) && s.wordGame.Some? && ValidWordGame(s.wordGame.value) ==>
      && r.value.wordGame.Some? && ValidWordGame(r.value.wordGame.value)
      && s.wordGame.value.questionIndex <= r.value.wordGame.value.questionIndex
      && (!GuessRoute(s) ==> r.value.wordGame.value.answers == s.wordGame.value.answers)
  {
    var input := Lower(Trim(rawInput));
    if AsksToPlayAgain(s.messages) then
      graph(s.(gameChoice := Some(Retry), userInput := input))
    else
      var s1 := s.(userInput := input, gameChoice := Some(WordGame));
      if s1.wordGame.None? then
        Some(s1.(messages := if RespondingToGuess(s.messages) then GuessReply(input) else WordTroubleLines))
      else
        var wg := s1.wordGame.value;
        if FreshWordGame(wg) then AfterAskQuestions(s1, ask)
        else if RespondingToGuess(s.messages) then Some(s1.(messages := GuessReply(input)))
        else if wg.questionIndex >= wg.maxQuestions then
          NormaliseIdempotent(rawInput);
          AfterGuessWord(s1, ask)
        else AfterAskQuestions(s1, ask)
  }

  /**
   * `word_game_step(request)`: `st` is the request's state. Off the play-again path the response is
   * `st` itself; on it `st` holds the retry choice and the input handed to the graph.
   */
  method WordGameStep(st: Session, rawInput: string, graph: Graph, ask: LanguageModel) returns (response: Option<GameState>)
    modifies st
    ensures response == WordGameStepResponse(old(st.Value()), rawInput, graph, ask)
    ensures if AsksToPlayAgain(old(st.messages))
      then st.Value() == old(st.Value()).(gameChoice := Some(Retry), userInput := Lower(Trim(rawInput)))
      else response == Some(st.Value())
  {
    var userInput := Lower(Trim(rawInput));
    var allMessages := st.messages;
    if AsksToPlayAgain(allMessages) {
      st.gameChoice := Some(Retry);
      st.userInput := userInput;
      return graph(st.Value());
    }
    st.userInput := userInput;
    if st.gameChoice != Some(WordGame) {
      st.gameChoice := Some(WordGame);
    }
    var responding := RespondingToGuess(allMessages);
    if st.wordGame.None? {
      // reading the null sub-state raises, and the failure handler runs
      st.messages := if responding then GuessReply(userInput) else WordTroubleLines;
      return Some(st.Value());
    }
    var wg := st.wordGame.value;
    if wg.questionIndex == 0 && wg.questions == [] {
      var _ := AskQuestions(st, ask);
    } else if responding {
      st.messages := GuessReply(userInput);
    } else if wg.questionIndex >= wg.maxQuestions {
      var _ := GuessWord(st, ask);
    } else {
      var _ := AskQuestions(st, ask);
    }
    response := Some(st.Value());
  }

  /** The word-game copy of `/game/exit`: the summary, then both counters reset to zero. */
  method ExitGameEndpoint(st: Session) returns (response: GameState)
    modifies st
    ensures response == st.Value() == AfterExitEndpoint(old(st.Value()))
  {
    ExitGame(st);
    st.numberGameCount := Some(0);
    st.wordGameCount := Some(0);
    response := st.Value();
  }

  /** The guess display is a verdict prompt: the step after it answers the verdict. */
  lemma GuessLinesAwaitVerdict(guess: string)
    ensures RespondingToGuess(GuessLines(guess))
  {
    var lines := GuessLines(guess);
    assert lines[0] == "My guess is: **" + guess + "**";
    assert lines[0][..11] == "My guess is";
    assert StartsWith(lines[0], "My guess is");
    assert CorrectLine[..14] == "Was I correct?";
    assert StartsWith(lines[1], "Was I correct?");
  }

  /**
   * Once the guess is shown (and does not itself read as a play-again prompt), the next step answers
   * the verdict and nothing else, and the step after that is handed to the graph as a retry.
   */
  lemma VerdictAnswered(s: GameState, guess: string, rawInput: string, graph: Graph, ask: LanguageModel)
    requires s.messages == GuessLines(guess) && !AsksToPlayAgain(GuessLines(guess))
    requires s.wordGame.Some? && !FreshWordGame(s.wordGame.value)
    ensures var input := Lower(Trim(rawInput));
      WordGameStepResponse(s, rawInput, graph, ask)
        == Some(s.(userInput := input, gameChoice := Some(WordGame), messages := GuessReply(input)))
    ensures AsksToPlayAgain(GuessReply(Lower(Trim(rawInput))))
  {
    GuessLinesAwaitVerdict(guess);
    PlayAgainLineAsks(GuessReply(Lower(Trim(rawInput)))[1]);
  }

  /** The model never answers: every call raises. */
  ghost predicate SilentModel(ask: LanguageModel) {
    forall p: Prompt, k: nat :: ask(p, k).None?
  }

  /** The two lines asking the fallback question with index `index`. */
  function FallbackLines(index: nat): seq<string> {
    AppendQuestionPrompt([], FallbackQuestion, index)
  }

  /** The line announcing the fallback question has no 'p', 'P' or 'M' in it. */
  lemma FallbackQuestionLineLetters(index: nat)
    ensures var line := FallbackLines(index)[0];
      'p' !in line && 'P' !in line && 'M' !in line
  {
    var number := IntToString(index + 1);
    assert forall i :: 0 <= i < |number| ==> IsDigit(number[i]);
    var head := "Question " + number + ": ";
    assert 'p' !in head && 'P' !in head && 'M' !in head;
    LiteralLetters(FallbackQuestion, AnswerLine);
    assert FallbackLines(index)[0] == head + FallbackQuestion;
  }

  /**
   * The fallback question and the answer prompt hold no 'p', 'P' or 'M'. The literals are
   * parameters pinned by `requires`, so their characters are unfolded only inside this lemma.
   */
  lemma LiteralLetters(question: string, answerPrompt: string)
    requires question == "Is it something you use daily?" && answerPrompt == "Your answer? (yes/no/maybe)"
    ensures 'p' !in question && 'P' !in question && 'M' !in question
    ensures 'p' !in answerPrompt && 'P' !in answerPrompt && 'M' !in answerPrompt
  {
    assert forall i :: 0 <= i < |question| ==> question[i] != 'p' && question[i] != 'P' && question[i] != 'M';
    assert forall i :: 0 <= i < |answerPrompt| ==> answerPrompt[i] != 'p' && answerPrompt[i] != 'P' && answerPrompt[i] != 'M';
  }

  /** The answer prompt under a question has no 'p', 'P' or 'M' in it. */
  lemma AnswerLineLetters(index: nat)
    ensures var line := FallbackLines(index)[1];
      'p' !in line && 'P' !in line && 'M' !in line
  {
    LiteralLetters(FallbackQuestion, AnswerLine);
  }

  /** The fallback question lines are not read as asking to play again. */
  lemma FallbackLinesDoNotAsk(index: nat)
    ensures !AsksToPlayAgain(FallbackLines(index))
  {
    FallbackQuestionLineLetters(index);
    AnswerLineLetters(index);
    NoLetterNoPlayAgain(FallbackLines(index), 'p', 'P');
  }

  /** The fallback question lines are not read as a verdict prompt. */
  lemma FallbackLinesAreNoVerdict(index: nat)
    ensures !RespondingToGuess(FallbackLines(index))
  {
    FallbackQuestionLineLetters(index);
    AnswerLineLetters(index);
    NoLetterMNoVerdict(FallbackLines(index));
  }

  /** Output none of whose lines holds an 'M' is not a verdict prompt. */
  lemma NoLetterMNoVerdict(messages: seq<string>)
    requires forall i :: 0 <= i < |messages| ==> 'M' !in messages[i]
    ensures !RespondingToGuess(messages)
  {
    assert "My guess is"[0] == 'M';
    forall i | 0 <= i < |messages|
      ensures !Contains(messages[i], "My guess is")
    {
      MissingCharNotContained(messages[i], "My guess is", 'M');
    }
  }

  /** The state after a question step that fell back to the fixed question. */
  function FallbackAsked(s: GameState, rawInput: string): GameState
    requires s.wordGame.Some? && s.wordGame.value.questionIndex >= 0
  {
    var wg := s.wordGame.value;
    s.(userInput := Lower(Trim(rawInput)), gameChoice := Some(WordGame), messages := FallbackLines(wg.questionIndex),
       wordGame := Some(wg.(questions := wg.questions + [FallbackQuestion], questionIndex := wg.questionIndex + 1)))
  }

  /** With a silent model, a question step asks the fallback question and records nothing else. */
  lemma SilentQuestionStep(s: GameState, rawInput: string, graph: Graph, ask: LanguageModel)
    requires SilentModel(ask)
    requires s.wordGame.Some? && 0 <= s.wordGame.value.questionIndex < s.wordGame.value.maxQuestions
    requires FreshWordGame(s.wordGame.value) || !RespondingToGuess(s.messages)
    requires !AsksToPlayAgain(s.messages)
    ensures WordGameStepResponse(s, rawInput, graph, ask) == Some(FallbackAsked(s, rawInput))
  {
    var wg := s.wordGame.value;
    assert ask(QuestionPromptFor(wg), 0).None?;
  }

  /** With a silent model, a session with a question left starts by asking the fallback question. */
  lemma SilentQuestionFirst(s: GameState, inputs: seq<string>, graph: Graph, ask: LanguageModel)
    requires SilentModel(ask)
    requires s.wordGame.Some? && 0 <= s.wordGame.value.questionIndex < s.wordGame.value.maxQuestions
    requires inputs != []
    requires FreshWordGame(s.wordGame.value) || !RespondingToGuess(s.messages)
    requires !AsksToPlayAgain(s.messages)
    ensures PlayWordGame(s, inputs, graph, ask) == PlayWordGame(FallbackAsked(s, inputs[0]), inputs[1..], graph, ask)
  {
    SilentQuestionStep(s, inputs[0], graph, ask);
  }

  /** Playing no input leaves the session as it is. */
  lemma PlayNothing(s: GameState, inputs: seq<string>, graph: Graph, ask: LanguageModel)
    requires inputs == []
    ensures PlayWordGame(s, inputs, graph, ask) == Some(s)
  {
  }

  /** `n` copies of the fallback question. */
  function Fallbacks(n: nat): seq<string> {
    if n == 0 then [] else [FallbackQuestion] + Fallbacks(n - 1)
  }

  /** The steps of a session at `/game/word`, one input each, stopping if a step raises. */
  function PlayWordGame(s: GameState, inputs: seq<string>, graph: Graph, ask: LanguageModel): Option<GameState>
    decreases |inputs|
  {
    if inputs == [] then Some(s)
    else
      match WordGameStepResponse(s, inputs[0], graph, ask)
      case None => None
      case Some(next) => PlayWordGame(next, inputs[1..], graph, ask)
  }

  /** The session after one fallback question step per input. */
  function FallbacksAsked(s: GameState, inputs: seq<string>): (r: GameState)
    requires s.wordGame.Some? && s.wordGame.value.questionIndex >= 0
    ensures r.wordGame.Some?
    decreases |inputs|
  {
    if inputs == [] then s else FallbacksAsked(FallbackAsked(s, inputs[0]), inputs[1..])
  }

  /**
   * After fallback steps the fallback question has been appended once per input and the index has
   * advanced as far; the answers, the counters and everything else but the input, the choice and the
   * output are as they were.
   */
  lemma {:induction false} FallbacksAskedShape(s: GameState, inputs: seq<string>)
    requires s.wordGame.Some? && s.wordGame.value.questionIndex >= 0
    requires inputs != []
    ensures var wg, r := s.wordGame.value, FallbacksAsked(s, inputs);
      && r.wordGame == Some(wg.(questions := wg.questions + Fallbacks(|inputs|),
                                questionIndex := wg.questionIndex + |inputs|))
      && r.messages == FallbackLines(wg.questionIndex + |inputs| - 1)
      && r == s.(userInput := r.userInput, gameChoice := Some(WordGame), messages := r.messages, wordGame := r.wordGame)
    decreases |inputs|
  {
    var wg := s.wordGame.value;
    if |inputs| > 1 {
      FallbacksAskedShape(FallbackAsked(s, inputs[0]), inputs[1..]);
      assert wg.questions + [FallbackQuestion] + Fallbacks(|inputs| - 1) == wg.questions + Fallbacks(|inputs|);
    } else {
      assert Fallbacks(1) == [FallbackQuestion];
      assert FallbacksAsked(s, inputs) == FallbackAsked(s, inputs[0]);
    }
  }

  /**
   * With a silent model, a game with questions left asks the fallback question at every step until
   * the budget is spent.
   */
  lemma {:induction false} SilentQuestionsUntilBudget(s: GameState, inputs: seq<string>, graph: Graph, ask: LanguageModel)
    requires SilentModel(ask)
    requires s.wordGame.Some? && 0 <= s.wordGame.value.questionIndex < s.wordGame.value.maxQuestions
    requires |inputs| == s.wordGame.value.maxQuestions - s.wordGame.value.questionIndex
    requires FreshWordGame(s.wordGame.value) || !RespondingToGuess(s.messages)
    requires !AsksToPlayAgain(s.messages)
    ensures PlayWordGame(s, inputs, graph, ask) == Some(FallbacksAsked(s, inputs))
    decreases |inputs|
  {
    var wg := s.wordGame.value;
    var next := FallbackAsked(s, inputs[0]);
    assert FallbacksAsked(s, inputs) == FallbacksAsked(next, inputs[1..]);
    SilentQuestionFirst(s, inputs, graph, ask);
    if |inputs| == 1 {
      assert FallbacksAsked(next, inputs[1..]) == next;
      PlayNothing(next, inputs[1..], graph, ask);
    } else {
      FallbackLinesDoNotAsk(wg.questionIndex);
      FallbackLinesAreNoVerdict(wg.questionIndex);
      SilentQuestionsUntilBudget(next, inputs[1..], graph, ask);
    }
  }

  /** The opening lines of "2" are not read as asking to play again. */
  lemma StartWordLinesDoNotAsk(lines: seq<string>)
    requires lines == StartWordLines
    ensures !AsksToPlayAgain(lines)
  {
    StartWordLinesWithoutY(lines[0], lines[1]);
    assert 'y' in "play again" && 'y' in "play another game";
    NoLetterNoPlayAgain(lines, 'y', 'Y');
  }

  /**
   * Neither opening line of "2" holds a 'y' in either case. The literals are parameters pinned by
   * `requires`, so their characters are unfolded only inside this lemma.
   */
  lemma StartWordLinesWithoutY(invitation: string, words: string)
    requires invitation == "Think of a word from this list:"
    requires words == "apple, kiwi, desk, chair, car, pen"
    ensures 'y' !in invitation && 'Y' !in invitation && 'y' !in words && 'Y' !in words
  {
    assert forall i :: 0 <= i < |invitation| ==> invitation[i] != 'y' && invitation[i] != 'Y';
    assert forall i :: 0 <= i < |words| ==> words[i] != 'y' && words[i] != 'Y';
  }

  /** On the guess route the step is `guess_word` on the request with the normalised input and the word game chosen. */
  lemma GuessRouteStep(s: GameState, rawInput: string, graph: Graph, ask: LanguageModel)
    requires GuessRoute(s)
    ensures WordGameStepResponse(s, rawInput, graph, ask)
      == AfterGuessWord(s.(userInput := Lower(Trim(rawInput)), gameChoice := Some(WordGame)), ask)
  {
  }

  /**
   * The state after the silent guess: the normalised input, the pending answer recorded, the guess
   * "apple", one more word game, the guess shown, and the game ended on "yes" or "no".
   */
  function SilentGuessed(s: GameState, rawInput: string): GameState
    requires s.wordGame.Some?
  {
    var input := Lower(Trim(rawInput));
    s.(userInput := input,
       gameChoice := if input == "yes" then Some(Retry) else if input == "no" then None else Some(WordGame),
       wordGame := Some(RecordAnswer(s.wordGame.value, input).(guess := Some("apple"))),
       wordGameCount := Some(Count(s.wordGameCount) + 1),
       messages := GuessLines("apple"))
  }

  /** With a silent model, `guess_word` on a request holding the normalised input with the word game chosen is the silent guess. */
  lemma SilentGuessWord(s: GameState, rawInput: string, ask: LanguageModel)
    requires SilentModel(ask)
    requires s.wordGame.Some?
    ensures AfterGuessWord(s.(userInput := Lower(Trim(rawInput)), gameChoice := Some(WordGame)), ask)
      == Some(SilentGuessed(s, rawInput))
  {
    NormaliseIdempotent(rawInput);
    assert ask(GuessPromptFor(RecordAnswer(s.wordGame.value, Lower(Trim(rawInput)))), 0).None?;
  }

  /** With a silent model, the step after the last fallback question is the silent guess. */
  lemma SilentGuessStep(s: GameState, index: nat, rawInput: string, graph: Graph, ask: LanguageModel)
    requires SilentModel(ask)
    requires s.wordGame.Some? && !FreshWordGame(s.wordGame.value)
    requires s.wordGame.value.questionIndex >= s.wordGame.value.maxQuestions
    requires s.messages == FallbackLines(index)
    ensures WordGameStepResponse(s, rawInput, graph, ask) == Some(SilentGuessed(s, rawInput))
  {
    FallbackLinesDoNotAsk(index);
    FallbackLinesAreNoVerdict(index);
    GuessRouteStep(s, rawInput, graph, ask);
    SilentGuessWord(s, rawInput, ask);
  }

  /** When playing `first` reaches `mid`, playing one more input is one more step from `mid`. */
  lemma PlayThenStep(s: GameState, first: seq<string>, mid: GameState, input: string, graph: Graph, ask: LanguageModel)
    requires PlayWordGame(s, first, graph, ask) == Some(mid)
    ensures PlayWordGame(s, first + [input], graph, ask) == WordGameStepResponse(mid, input, graph, ask)
  {
    PlayWordGamePrefix(s, first, [input], graph, ask);
    assert [input][1..] == [];
  }

  /** Five fallback steps from a fresh word game spend its budget, with the last fallback question on show. */
  lemma FallbacksSpendBudget(start: GameState, questionInputs: seq<string>)
    requires start.wordGame == Some(InitWordGameState(true)) && |questionInputs| == MaxQuestions
    ensures var asked := FallbacksAsked(start, questionInputs);
      && !FreshWordGame(asked.wordGame.value)
      && asked.wordGame.value.questionIndex >= asked.wordGame.value.maxQuestions
      && asked.messages == FallbackLines(MaxQuestions - 1)
  {
    FallbacksAskedShape(start, questionInputs);
  }

  /** With a silent model, five answers to a fresh word game get the fallback questions and the sixth the silent guess. */
  lemma SilentWordGamePlay(start: GameState, questionInputs: seq<string>, answer: string, graph: Graph, ask: LanguageModel)
    requires SilentModel(ask)
    requires start.wordGame == Some(InitWordGameState(true)) && !AsksToPlayAgain(start.messages)
    requires |questionInputs| == MaxQuestions
    ensures PlayWordGame(start, questionInputs + [answer], graph, ask)
      == Some(SilentGuessed(FallbacksAsked(start, questionInputs), answer))
  {
    var asked := FallbacksAsked(start, questionInputs);
    SilentQuestionsUntilBudget(start, questionInputs, graph, ask);
    PlayThenStep(start, questionInputs, asked, answer, graph, ask);
    FallbacksSpendBudget(start, questionInputs);
    SilentGuessStep(asked, MaxQuestions - 1, answer, graph, ask);
  }

  /**
   * The silent game's outcome: only the sixth answer is recorded, so the transcript pairs it with the
   * first of the five fallback questions; the guess is "apple" and one more word game is counted.
   */
  lemma SilentWordGameOutcome(start: GameState, questionInputs: seq<string>, answer: string)
    requires start.wordGame == Some(InitWordGameState(true))
    requires |questionInputs| == MaxQuestions && Lower(Trim(answer)) != ""
    ensures var wg := SilentGuessed(FallbacksAsked(start, questionInputs), answer).wordGame.value;
      && wg.questions == Fallbacks(MaxQuestions)
      && wg.answers == [Lower(Trim(answer))]
      && QaPairs(wg.questions, wg.answers) == [QaLine(0, FallbackQuestion, Lower(Trim(answer)))]
      && wg.guess == Some("apple")
    ensures var r := SilentGuessed(FallbacksAsked(start, questionInputs), answer);
      r.messages == GuessLines("apple") && r.wordGameCount == Some(Count(start.wordGameCount) + 1)
  {
    FallbacksAskedShape(start, questionInputs);
    assert Fallbacks(MaxQuestions)[0] == FallbackQuestion;
  }

  /**
   * The end of a silent game: five fallback questions, only the last answer recorded, the guess
   * "apple" shown, and the word-game counter at `count`.
   */
  predicate SilentGameEnd(r: Option<GameState>, answer: string, count: int) {
    && r.Some? && r.value.wordGame.Some?
    && r.value.wordGame.value.questions == Fallbacks(MaxQuestions)
    && r.value.wordGame.value.answers == [Lower(Trim(answer))]
    && r.value.wordGame.value.guess == Some("apple")
    && r.value.messages == GuessLines("apple")
    && r.value.wordGameCount == Some(count)
  }

  /**
   * A whole word game against a silent model, from a fresh game whose output does not ask to play
   * again (the opening "2" gives one, see `StartWordOpensFreshGame`): five fallback questions, then
   * the fallback guess "apple" with only the last answer recorded and one more word game counted.
   */
  lemma SilentModelWordGame(start: GameState, questionInputs: seq<string>, answer: string, graph: Graph, ask: LanguageModel)
    requires SilentModel(ask)
    requires start.wordGame == Some(InitWordGameState(true)) && !AsksToPlayAgain(start.messages)
    requires |questionInputs| == MaxQuestions && Lower(Trim(answer)) != ""
    ensures SilentGameEnd(PlayWordGame(start, questionInputs + [answer], graph, ask), answer, Count(start.wordGameCount) + 1)
  {
    SilentWordGamePlay(start, questionInputs, answer, graph, ask);
    SilentWordGameOutcome(start, questionInputs, answer);
  }

  /** "2" at `/game/start` opens a fresh word game whose output does not ask to play again, with the counter kept. */
  lemma StartWordOpensFreshGame(s: GameState, rawInput: string, graph: Graph)
    requires Trim(rawInput) == "2"
    ensures var start := StartGameResponse(s, rawInput, graph);
      && start.wordGame == Some(InitWordGameState(true)) && !AsksToPlayAgain(start.messages)
      && Count(start.wordGameCount) == Count(s.wordGameCount)
  {
    StartWordLinesDoNotAsk(StartGameResponse(s, rawInput, graph).messages);
  }

  /** Playing `first` and then `rest` is playing their concatenation. */
  lemma {:induction false} PlayWordGamePrefix(s: GameState, first: seq<string>, rest: seq<string>, graph: Graph, ask: LanguageModel)
    requires PlayWordGame(s, first, graph, ask).Some?
    ensures PlayWordGame(s, first + rest, graph, ask) == PlayWordGame(PlayWordGame(s, first, graph, ask).value, rest, graph, ask)
    decreases |first|
  {
    if first != [] {
      assert (first + rest)[0] == first[0] && (first + rest)[1..] == first[1..] + rest;
      var next := WordGameStepResponse(s, first[0], graph, ask).value;
      PlayWordGamePrefix(next, first[1..], rest, graph, ask);
    } else {
      assert first + rest == rest;
    }
  }
}
