/**
 * The word-clue engine: a bounded loop of yes/no/maybe questions obtained from a language
 * model (with a de-duplicating retry and a fixed fallback question), followed by one guess.
 */
module WordGame {
  import opened Wrappers
  import opened Text
  import opened GameStates

  const WordList: seq<string> := ["apple", "kiwi", "desk", "chair", "car", "pen"]
  const MaxQuestions := 5
  /** Re-asks allowed when the model repeats a question. */
  const MaxAttempts := 3
  const FallbackQuestion := "Is it something you use daily?"
  const AnswerLine := "Your answer? (yes/no/maybe)"
  const CorrectLine := "Was I correct? (yes/no)"

  /** A prompt, given by the arguments its template is filled with (the template text is not modelled). */
  datatype Prompt =
    | QuestionPrompt(words: seq<string>, questionNumber: int, maxQuestions: int, asked: set<string>)
    | GuessPrompt(words: seq<string>, qa: seq<string>)

  /**
   * The language model: `ask(p, k)` is the reply to the k-th call (from 0) with prompt `p` during
   * one step, before `.strip()`; `None` when that call raises. Successive calls may reply differently.
   */
  type LanguageModel = (Prompt, nat) -> Option<string>

  /** What the engine keeps true of its sub-state: `|answers| <= |questions| == index <= max`. */
  predicate ValidWordGame(wg: WordGameAgent) {
    |wg.answers| <= |wg.questions| == wg.questionIndex <= wg.maxQuestions
  }

  /** `init_word_game_state(show_list)`: the six candidate words, five questions, nothing asked yet. */
  function InitWordGameState(showList: bool): (wg: WordGameAgent)
    ensures wg.words == WordList && wg.maxQuestions == MaxQuestions && wg.questionIndex == 0
    ensures wg.questions == [] && wg.answers == [] && wg.askedSet == {}
    ensures wg.guess == None && wg.wordListShown == Some(showList)
    ensures ValidWordGame(wg)
  {
    WordGameAgent(WordList, MaxQuestions, 0, [], [], None, {}, Some(showList))
  }

  /** `append_question_prompt`: two lines added after the existing ones, which stay as they were. */
  function AppendQuestionPrompt(messages: seq<string>, question: string, index: int): (r: seq<string>)
    ensures |r| == |messages| + 2 && r[..|messages|] == messages
    ensures r[|messages|] == "Question " + IntToString(index + 1) + ": " + question
    ensures r[|messages| + 1] == AnswerLine
  {
    messages + ["Question " + IntToString(index + 1) + ": " + question, AnswerLine]
  }

  const WordListLines := ["Think of a word from this list:", Join(WordList, ", ")]

  /** The state after `choose_word`: the word list shown and a fresh sub-state, nothing else changed. */
  function AfterChooseWord(s: GameState): (r: GameState)
    ensures r.messages == WordListLines
    ensures r.wordGame == Some(InitWordGameState(true))
    ensures r == s.(messages := r.messages, wordGame := r.wordGame)
  {
    s.(messages := WordListLines, wordGame := Some(InitWordGameState(true)))
  }

  /** `choose_word(state)`. */
  method ChooseWord(st: Session)
    modifies st
    ensures st.Value() == AfterChooseWord(old(st.Value()))
  {
    st.messages := ["Think of a word from this list:", Join(WordList, ", ")];
    st.wordGame := Some(InitWordGameState(true));
  }

  /** The prompt `get_question` sends: words, 1-based question number, budget and questions used. */
  function QuestionPromptFor(wg: WordGameAgent): Prompt {
    QuestionPrompt(wg.words, wg.questionIndex + 1, wg.maxQuestions, wg.askedSet)
  }

  /**
   * The retry loop from attempt `attempt` on, holding the stripped reply `question`: asks again while
   * the question was used before and attempts remain. `None` when a call raises.
   */
  function RetryQuestion(ask: LanguageModel, p: Prompt, asked: set<string>, question: string, attempt: nat): Option<string>
    requires attempt <= MaxAttempts
    decreases MaxAttempts - attempt
  {
    if question in asked && attempt < MaxAttempts then
      match ask(p, attempt + 1)
      case None => None
      case Some(reply) => RetryQuestion(ask, p, asked, Trim(reply), attempt + 1)
    else
      Some(question)
  }

  /** The question `get_question` settles on, or `None` when one of its model calls raised. */
  function SettledQuestion(ask: LanguageModel, wg: WordGameAgent): Option<string> {
    var p := QuestionPromptFor(wg);
    match ask(p, 0)
    case None => None
    case Some(reply) => RetryQuestion(ask, p, wg.askedSet, Trim(reply), 0)
  }

  /**
   * `get_question(wg)`: the question returned and the sub-state afterwards. When a call raised it
   * returns the fixed fallback question and leaves `asked_set` alone; otherwise the question is added.
   */
  function AfterGetQuestion(wg: WordGameAgent, ask: LanguageModel): (r: (string, WordGameAgent))
    ensures r.1 == wg.(askedSet := r.1.askedSet)
    ensures SettledQuestion(ask, wg).None? ==> r.0 == FallbackQuestion && r.1 == wg
    ensures SettledQuestion(ask, wg).Some? ==> r.0 == SettledQuestion(ask, wg).value && r.1.askedSet == wg.askedSet + {r.0}
  {
    match SettledQuestion(ask, wg)
    case None => (FallbackQuestion, wg)
    case Some(q) => (q, wg.(askedSet := wg.askedSet + {q}))
  }

  /** `get_question(wg)` on the session's sub-state: the while loop with its attempt counter. */
  method GetQuestion(st: Session, ask: LanguageModel) returns (question: string)
    requires st.wordGame.Some?
    modifies st
    ensures st.wordGame.Some?
    ensures (question, st.wordGame.value) == AfterGetQuestion(old(st.wordGame.value), ask)
    ensures st.Value() == old(st.Value()).(wordGame := st.wordGame)
  {
    var wg := st.wordGame.value;
    var prompt := QuestionPromptFor(wg);
    var reply := ask(prompt, 0);
    if reply.None? {
      return FallbackQuestion;
    }
    question := Trim(reply.value);
    var attempt := 0;
    while question in wg.askedSet && attempt < MaxAttempts
      invariant 0 <= attempt <= MaxAttempts
      invariant RetryQuestion(ask, prompt, wg.askedSet, question, attempt) == SettledQuestion(ask, wg)
      decreases MaxAttempts - attempt
    {
      reply := ask(prompt, attempt + 1);
      if reply.None? {
        return FallbackQuestion;
      }
      question := Trim(reply.value);
      attempt := attempt + 1;
    }
    st.wordGame := Some(wg.(askedSet := wg.askedSet + {question}));
  }

  /** Only the replies to calls 0 to `MaxAttempts` matter to the retry loop from `attempt` on. */
  lemma {:induction false} RetryUsesFirstCalls(ask1: LanguageModel, ask2: LanguageModel, p: Prompt, asked: set<string>, question: string, attempt: nat)
    requires attempt <= MaxAttempts
    requires forall k: nat :: k <= MaxAttempts ==> ask1(p, k) == ask2(p, k)
    ensures RetryQuestion(ask1, p, asked, question, attempt) == RetryQuestion(ask2, p, asked, question, attempt)
    decreases MaxAttempts - attempt
  {
    if question in asked && attempt < MaxAttempts {
      assert ask1(p, attempt + 1) == ask2(p, attempt + 1);
      if ask1(p, attempt + 1).Some? {
        RetryUsesFirstCalls(ask1, ask2, p, asked, Trim(ask1(p, attempt + 1).value), attempt + 1);
      }
    }
  }

  /** `get_question` calls the model at most four times: two models that agree on calls 0..3 give the same outcome. */
  lemma GetQuestionAtMostFourCalls(wg: WordGameAgent, ask1: LanguageModel, ask2: LanguageModel)
    requires forall k: nat :: k <= MaxAttempts ==> ask1(QuestionPromptFor(wg), k) == ask2(QuestionPromptFor(wg), k)
    ensures AfterGetQuestion(wg, ask1) == AfterGetQuestion(wg, ask2)
  {
    var p := QuestionPromptFor(wg);
    assert ask1(p, 0) == ask2(p, 0);
    if ask1(p, 0).Some? {
      RetryUsesFirstCalls(ask1, ask2, p, wg.askedSet, Trim(ask1(p, 0).value), 0);
    }
  }

  /** When no call raises, the retry loop ends on some question. */
  lemma {:induction false} RetrySettles(ask: LanguageModel, p: Prompt, asked: set<string>, question: string, attempt: nat)
    requires attempt <= MaxAttempts
    requires forall k: nat :: ask(p, k).Some?
    ensures RetryQuestion(ask, p, asked, question, attempt).Some?
    decreases MaxAttempts - attempt
  {
    if question in asked && attempt < MaxAttempts {
      RetrySettles(ask, p, asked, Trim(ask(p, attempt + 1).value), attempt + 1);
    }
  }

  /** When the model never fails, the question returned is recorded in `asked_set`. */
  lemma GetQuestionRecordsQuestion(wg: WordGameAgent, ask: LanguageModel)
    requires forall k: nat :: ask(QuestionPromptFor(wg), k).Some?
    ensures AfterGetQuestion(wg, ask).0 in AfterGetQuestion(wg, ask).1.askedSet
  {
    var p := QuestionPromptFor(wg);
    assert ask(p, 0).Some?;
    RetrySettles(ask, p, wg.askedSet, Trim(ask(p, 0).value), 0);
  }

  /** The stripped reply to call `k`, when it did not raise, was a question already used. */
  predicate RepeatedAt(ask: LanguageModel, p: Prompt, asked: set<string>, k: nat) {
    ask(p, k).Some? && Trim(ask(p, k).value) in asked
  }

  /** A question already used is returned from the loop only after every remaining attempt repeated too. */
  lemma {:induction false} RetryRepeatsOnlyWhenExhausted(ask: LanguageModel, p: Prompt, asked: set<string>, question: string, attempt: nat)
    requires attempt <= MaxAttempts
    requires RetryQuestion(ask, p, asked, question, attempt).Some?
    requires RetryQuestion(ask, p, asked, question, attempt).value in asked
    ensures question in asked
    ensures forall k: nat :: attempt < k <= MaxAttempts ==> RepeatedAt(ask, p, asked, k)
    decreases MaxAttempts - attempt
  {
    if question in asked && attempt < MaxAttempts {
      var next := Trim(ask(p, attempt + 1).value);
      RetryRepeatsOnlyWhenExhausted(ask, p, asked, next, attempt + 1);
      assert RepeatedAt(ask, p, asked, attempt + 1);
    }
  }

  /** `get_question` returns a question already asked only after all four replies repeated one. */
  lemma GetQuestionRepeatsOnlyAfterFourRepeats(wg: WordGameAgent, ask: LanguageModel)
    requires SettledQuestion(ask, wg).Some?
    requires AfterGetQuestion(wg, ask).0 in wg.askedSet
    ensures forall k: nat :: k <= MaxAttempts ==> RepeatedAt(ask, QuestionPromptFor(wg), wg.askedSet, k)
  {
    var p := QuestionPromptFor(wg);
    RetryRepeatsOnlyWhenExhausted(ask, p, wg.askedSet, Trim(ask(p, 0).value), 0);
  }

  /**
   * The state after `ask_questions`, or `None` when it raises (a null sub-state). Under budget it
   * appends exactly one question, advances the index by one and emits that question's two lines;
   * over budget it leaves the sub-state alone and empties the output. Answers are never touched.
   */
  function AfterAskQuestions(s: GameState, ask: LanguageModel): (r: Option<GameState>)
    ensures r.None? <==> s.wordGame.None?
    ensures r.Some? ==> r.value == s.(wordGame := r.value.wordGame, messages := r.value.messages)
    ensures r.Some? ==> r.value.wordGame.Some?
    ensures r.Some? && s.wordGame.value.questionIndex < s.wordGame.value.maxQuestions ==>
      var wg, wg' := s.wordGame.value, r.value.wordGame.value;
      var (question, asked) := AfterGetQuestion(wg, ask);
      && wg'.questions == wg.questions + [question]
      && wg'.questionIndex == wg.questionIndex + 1
      && wg' == wg.(questions := wg'.questions, questionIndex := wg'.questionIndex, askedSet := asked.askedSet)
      && r.value.messages == AppendQuestionPrompt([], question, wg.questionIndex)
    ensures r.Some? && s.wordGame.value.questionIndex >= s.wordGame.value.maxQuestions ==>
      r.value.wordGame == s.wordGame && r.value.messages == []
    ensures r.Some? && ValidWordGame(s.wordGame.value) ==> ValidWordGame(r.value.wordGame.value)
  {
    if s.wordGame.None? then None
    else
      var wg := s.wordGame.value;
      if wg.questionIndex < wg.maxQuestions then
        var (question, wg1) := AfterGetQuestion(wg, ask);
        var wg2 := wg1.(questions := wg1.questions + [question], questionIndex := wg1.questionIndex + 1);
        Some(s.(wordGame := Some(wg2), messages := AppendQuestionPrompt([], question, wg.questionIndex)))
      else
        Some(s.(messages := []))
  }

  /** `ask_questions(state)`, updating the session in place; `ok` is false when it raises. */
  method AskQuestions(st: Session, ask: LanguageModel) returns (ok: bool)
    modifies st
    ensures ok == AfterAskQuestions(old(st.Value()), ask).Some?
    ensures st.Value() == AfterAskQuestions(old(st.Value()), ask).GetOr(old(st.Value()))
  {
    if st.wordGame.None? {
      return false;
    }
    var messages: seq<string> := [];
    if st.wordGame.value.questionIndex < st.wordGame.value.maxQuestions {
      var question := GetQuestion(st, ask);
      var wg := st.wordGame.value;
      wg := wg.(questions := wg.questions + [question]);
      messages := AppendQuestionPrompt(messages, question, wg.questionIndex);
      wg := wg.(questionIndex := wg.questionIndex + 1);
      st.wordGame := Some(wg);
    }
    st.messages := messages;
    ok := true;
  }

  /** One line of the transcript sent with the guess prompt. */
  function QaLine(i: nat, question: string, answer: string): string {
    "Q" + IntToString(i + 1) + ": " + question + " A: " + answer
  }

  /** The `qa_pairs` comprehension: one line per question that has an answer, in order. */
  function QaPairs(questions: seq<string>, answers: seq<string>): (r: seq<string>)
    ensures |r| == if |questions| <= |answers| then |questions| else |answers|
    ensures forall i :: 0 <= i < |r| ==> r[i] == QaLine(i, questions[i], answers[i])
  {
    var n := if |questions| <= |answers| then |questions| else |answers|;
    seq(n, i requires 0 <= i < n => QaLine(i, questions[i], answers[i]))
  }

  function GuessPromptFor(wg: WordGameAgent): Prompt {
    GuessPrompt(wg.words, QaPairs(wg.questions, wg.answers))
  }

  /** The guess: the model's stripped reply, or the first candidate word when the call raises. */
  function ModelGuess(ask: LanguageModel, wg: WordGameAgent): string {
    match ask(GuessPromptFor(wg), 0)
    case None => WordList[0]
    case Some(reply) => Trim(reply)
  }

  /** The guess is "apple" when the call raises, and otherwise the model's reply with only the surrounding whitespace removed. */
  lemma ModelGuessSpec(ask: LanguageModel, wg: WordGameAgent)
    ensures ask(GuessPromptFor(wg), 0).None? ==> ModelGuess(ask, wg) == "apple"
    ensures ask(GuessPromptFor(wg), 0).Some? ==>
      var reply, g := ask(GuessPromptFor(wg), 0).value, ModelGuess(ask, wg);
      && PaddedAt(reply, g, |reply| - |TrimStart(reply)|)
      && (g != [] ==> !IsSpace(g[0]) && !IsSpace(g[|g| - 1]))
  {
    if ask(GuessPromptFor(wg), 0).Some? {
      TrimSpec(ask(GuessPromptFor(wg), 0).value);
    }
  }

  /** `guess_word` calls the model once: two models that agree on that call give the same guess. */
  lemma ModelGuessOneCall(ask1: LanguageModel, ask2: LanguageModel, wg: WordGameAgent)
    requires ask1(GuessPromptFor(wg), 0) == ask2(GuessPromptFor(wg), 0)
    ensures ModelGuess(ask1, wg) == ModelGuess(ask2, wg)
  {
  }

  /** `guess_word`'s answer bookkeeping: a non-empty input is recorded while a question is unanswered. */
  function RecordAnswer(wg: WordGameAgent, input: string): (wg': WordGameAgent)
    ensures wg' == wg.(answers := wg'.answers)
    ensures input != "" && |wg.answers| < |wg.questions| ==> wg'.answers == wg.answers + [input]
    ensures input == "" || |wg.answers| >= |wg.questions| ==> wg'.answers == wg.answers
    ensures ValidWordGame(wg) ==> ValidWordGame(wg')
  {
    if input != "" && |wg.answers| < |wg.questions| then wg.(answers := wg.answers + [input]) else wg
  }

  function GuessLines(guess: string): seq<string> {
    ["My guess is: **" + guess + "**", CorrectLine]
  }

  /**
   * The state after `guess_word`, or `None` when it raises (a null sub-state). It records a pending
   * answer, stores a guess (the first candidate word when the model fails), counts one more word
   * game, prints the guess, and changes `game_choice` only for "yes" (retry) or "no" (none).
   */
  function AfterGuessWord(s: GameState, ask: LanguageModel): (r: Option<GameState>)
    ensures r.None? <==> s.wordGame.None?
    ensures r.Some? ==>
      var input := Lower(Trim(s.userInput));
      var wg1 := RecordAnswer(s.wordGame.value, input);
      && r.value.wordGame == Some(wg1.(guess := Some(ModelGuess(ask, wg1))))
      && (ask(GuessPromptFor(wg1), 0).None? ==> ModelGuess(ask, wg1) == "apple")
      && r.value.wordGameCount == Some(Count(s.wordGameCount) + 1)
      && r.value.messages == GuessLines(ModelGuess(ask, wg1))
      && r.value.gameChoice == (if input == "yes" then Some(Retry) else if input == "no" then None else s.gameChoice)
      && r.value == s.(wordGame := r.value.wordGame, wordGameCount := r.value.wordGameCount,
                       messages := r.value.messages, gameChoice := r.value.gameChoice)
    ensures r.Some? && ValidWordGame(s.wordGame.value) ==> ValidWordGame(r.value.wordGame.value)
  {
    if s.wordGame.None? then None
    else
      var input := Lower(Trim(s.userInput));
      var wg := RecordAnswer(s.wordGame.value, input);
      var guess := ModelGuess(ask, wg);
      var choice := if input == "yes" then Some(Retry) else if input == "no" then None else s.gameChoice;
      Some(s.(wordGame := Some(wg.(guess := Some(guess))), wordGameCount := Some(Count(s.wordGameCount) + 1),
              messages := GuessLines(guess), gameChoice := choice))
  }

  /** `guess_word(state)`, updating the session in place; `ok` is false when it raises. */
  method GuessWord(st: Session, ask: LanguageModel) returns (ok: bool)
    modifies st
    ensures ok == AfterGuessWord(old(st.Value()), ask).Some?
    ensures st.Value() == AfterGuessWord(old(st.Value()), ask).GetOr(old(st.Value()))
  {
    if st.wordGame.None? {
      return false;
    }
    var wg := st.wordGame.value;
    var userInput := Lower(Trim(st.userInput));
    if userInput != "" && |wg.answers| < |wg.questions| {
      wg := wg.(answers := wg.answers + [userInput]);
    }
    var qaPairs := QaPairs(wg.questions, wg.answers);
    var reply := ask(GuessPrompt(wg.words, qaPairs), 0);
    if reply.Some? {
      wg := wg.(guess := Some(Trim(reply.value)));
    } else {
      wg := wg.(guess := Some(WordList[0]));
    }
    st.wordGame := Some(wg);
    st.wordGameCount := Some(Count(st.wordGameCount) + 1);
    st.messages := ["My guess is: **" + wg.guess.value + "**", "Was I correct? (yes/no)"];
    if userInput == "yes" || userInput == "no" {
      st.gameChoice := if userInput == "yes" then Some(Retry) else None;
    }
    ok := true;
  }
}
