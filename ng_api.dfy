/**
 * The HTTP handlers of the number game: `/game/start` (shared by both games), `/game/number`
 * and `/game/exit`. Each receives a session record, overwrites some of its keys and answers with
 * a session record; the compiled graph they may invoke is a parameter.
 */
module NumberGameApi {
  import opened Wrappers
  import opened Text
  import opened GameStates
  import opened ExitNode
  import opened NumberGame
  import opened WordGame

  /**
   * The compiled graph's `invoke`: the state it ends in, or `None` when it raises. It works on its
   * own copy of the state, so the caller's record is not changed by the call.
   */
  type Graph = GameState -> Option<GameState>

  /**
   * The opening line of "1". The handler sends it as one literal; it is written here as the invitation
   * followed by the first question, and the two parts spell exactly that literal.
   */
  const NumberInvitation := "Think of a number between 1 and 50. "
  const StartNumberLine := NumberInvitation + "Is your number greater than 25? (y/n)"
  const StartWordLines := ["Think of a word from this list:", "apple, kiwi, desk, chair, car, pen"]
  const InvalidOptionLine := "Please select a valid game option."
  const NumberTroubleLines := ["I'm having trouble with the number game at the moment.",
                               "Please try again or select a different game."]

  /** A counter the graph's result lacks is put back from the request, when the request's was positive. */
  function RestoreCount(result: Option<int>, saved: int): (r: Option<int>)
    ensures result.Some? ==> r == result
    ensures result.None? && saved > 0 ==> r == Some(saved)
    ensures r.None? ==> result.None? && saved <= 0
  {
    if result.None? && saved > 0 then Some(saved) else result
  }

  /**
   * The response of `start_game` to the request state `s` and raw input `rawInput`. "1" and "2" start
   * a game directly, with its opening lines and the counters written back; anything else goes through
   * the graph with the stripped input recorded, and a failure there asks for a valid option.
   */
  function StartGameResponse(s: GameState, rawInput: string, graph: Graph): (r: GameState)
    ensures var input := Trim(rawInput);
      input == "1" ==>
        r == s.(gameChoice := Some(NumberGame), numberGame := Some(FreshAgent), messages := [StartNumberLine],
                numberGameCount := Some(Count(s.numberGameCount)), wordGameCount := Some(Count(s.wordGameCount)))
    ensures var input := Trim(rawInput);
      input == "2" ==>
        r == s.(gameChoice := Some(WordGame), wordGame := Some(InitWordGameState(true)), messages := StartWordLines,
                numberGameCount := Some(Count(s.numberGameCount)), wordGameCount := Some(Count(s.wordGameCount)))
    ensures var input := Trim(rawInput);
      input != "1" && input != "2" && graph(s.(userInput := input)).None? ==>
        r == s.(userInput := input, gameChoice := None, messages := [InvalidOptionLine],
                numberGameCount := Some(Count(s.numberGameCount)), wordGameCount := Some(Count(s.wordGameCount)))
    ensures var input := Trim(rawInput);
      input != "1" && input != "2" && graph(s.(userInput := input)).Some? ==>
        var result := graph(s.(userInput := input)).value;
        && r == result.(numberGameCount := r.numberGameCount, wordGameCount := r.wordGameCount)
        && r.numberGameCount == RestoreCount(result.numberGameCount, Count(s.numberGameCount))
        && r.wordGameCount == RestoreCount(result.wordGameCount, Count(s.wordGameCount))
    // A positive counter of the request is never missing from the response.
    ensures Count(s.numberGameCount) > 0 ==> r.numberGameCount.Some?
    ensures Count(s.wordGameCount) > 0 ==> r.wordGameCount.Some?
  {
    var input := Trim(rawInput);
    var numberGames, wordGames := Count(s.numberGameCount), Count(s.wordGameCount);
    if input == "1" then
      s.(gameChoice := Some(NumberGame), numberGame := Some(FreshAgent), messages := [StartNumberLine],
         numberGameCount := Some(numberGames), wordGameCount := Some(wordGames))
    else if input == "2" then
      s.(gameChoice := Some(WordGame), wordGame := Some(InitWordGameState(true)), messages := StartWordLines,
         numberGameCount := Some(numberGames), wordGameCount := Some(wordGames))
    else
      var s1 := s.(userInput := input);
      match graph(s1)
      case None =>
        s1.(gameChoice := None, messages := [InvalidOptionLine],
            numberGameCount := Some(numberGames), wordGameCount := Some(wordGames))
      case Some(result) =>
        result.(numberGameCount := RestoreCount(result.numberGameCount, numberGames),
                wordGameCount := RestoreCount(result.wordGameCount, wordGames))
  }

  /**
   * `start_game(request)`: `st` is the request's state, which the handler writes into. When the graph
   * answers, the response is the graph's own record and `st` only gained the stripped input; otherwise
   * the response is `st` itself.
   */
  method StartGame(st: Session, rawInput: string, graph: Graph) returns (response: GameState)
    modifies st
    ensures response == StartGameResponse(old(st.Value()), rawInput, graph)
    ensures var input := Trim(rawInput);
      if input != "1" && input != "2" && graph(old(st.Value()).(userInput := input)).Some?
      then st.Value() == old(st.Value()).(userInput := input)
      else st.Value() == response
  {
    var userInput := Trim(rawInput);
    var numberGames := Count(st.numberGameCount);
    var wordGames := Count(st.wordGameCount);
    if userInput == "1" {
      st.gameChoice := Some(NumberGame);
      st.numberGame := Some(NumberGameAgent(1, 50, 0, Some(Guessing)));
      st.messages := [StartNumberLine];
      st.numberGameCount, st.wordGameCount := Some(numberGames), Some(wordGames);
      return st.Value();
    } else if userInput == "2" {
      st.gameChoice := Some(WordGame);
      st.wordGame := Some(WordGameAgent(["apple", "kiwi", "desk", "chair", "car", "pen"], 5, 0, [], [], None, {}, Some(true)));
      st.messages := StartWordLines;
      st.numberGameCount, st.wordGameCount := Some(numberGames), Some(wordGames);
      return st.Value();
    }
    st.userInput := userInput;
    var result := graph(st.Value());
    if result.None? {
      st.gameChoice := None;
      st.messages := [InvalidOptionLine];
      st.numberGameCount, st.wordGameCount := Some(numberGames), Some(wordGames);
      return st.Value();
    }
    response := result.value;
    if response.numberGameCount.None? && numberGames > 0 {
      response := response.(numberGameCount := Some(numberGames));
    }
    if response.wordGameCount.None? && wordGames > 0 {
      response := response.(wordGameCount := Some(wordGames));
    }
  }

  /** `guess_number`'s question for the fresh range `[1, 50]`, spelled out. */
  lemma FreshRangeQuestion()
    ensures QuestionLine(Mid(FreshAgent.min, FreshAgent.max)) == "Is your number greater than 25? (y/n)"
  {
    assert Mid(FreshAgent.min, FreshAgent.max) == 25;
    assert NatToString(2) == "2";
    assert DigitChar(5) == '5';
    assert IntToString(25) == "25";
  }

  /** The opening line of "1" asks exactly the question `guess_number` asks of the fresh range `[1, 50]`. */
  lemma StartNumberAsksFirstQuestion()
    ensures StartNumberLine == NumberInvitation + QuestionLine(Mid(FreshAgent.min, FreshAgent.max))
  {
    FreshRangeQuestion();
  }

  /**
   * The opening line of "1" is not mistaken for a play-again prompt by the next step. The output is
   * passed as a parameter pinned by `requires`, so the literal is unfolded only inside this lemma.
   */
  lemma StartNumberLineDoesNotAsk(lines: seq<string>)
    requires lines == [StartNumberLine]
    ensures !AsksToPlayAgain(lines)
  {
    StartNumberAsksFirstQuestion();
    QuestionLineWithoutP(Mid(FreshAgent.min, FreshAgent.max));
    NumberInvitationWithoutP(NumberInvitation);
    assert 'p' !in lines[0] && 'P' !in lines[0];
    assert 'p' in "play again" && 'p' in "play another game";
    NoLetterNoPlayAgain(lines, 'p', 'P');
  }

  /**
   * The invitation opening "1" holds no 'p' in either case. The literal is a parameter pinned by
   * `requires`, so its characters are unfolded only inside this lemma.
   */
  lemma NumberInvitationWithoutP(invitation: string)
    requires invitation == "Think of a number between 1 and 50. "
    ensures 'p' !in invitation && 'P' !in invitation
  {
    assert forall i :: 0 <= i < |invitation| ==> invitation[i] != 'p' && invitation[i] != 'P';
  }

  /**
   * The opening lines of "2" are the lines `choose_word` prints, `", ".join(WORD_LIST)` spelled out.
   * `tail` names the joined words after the first, so the proof can spell it out once.
   */
  lemma StartWordLinesAreWordListLines(tail: string)
    requires tail == Join(WordList[1..], ", ")
    ensures StartWordLines == WordListLines
  {
    var w := WordList;
    assert Join(w[4..], ", ") == "car, pen";
    assert Join(w[3..], ", ") == "chair, car, pen";
    assert Join(w[2..], ", ") == "desk, chair, car, pen";
    assert tail == "kiwi, desk, chair, car, pen";
    WordListLineSplit(StartWordLines[1], tail);
  }

  /**
   * The word line of "2" is the first word, the separator, and the other words joined. Both
   * literals are parameters pinned by `requires`, so they are compared only inside this lemma.
   */
  lemma WordListLineSplit(line: string, tail: string)
    requires line == "apple, kiwi, desk, chair, car, pen"
    requires tail == "kiwi, desk, chair, car, pen"
    ensures line == "apple" + ", " + tail
  {
  }

  /** The opening of "2" is what `choose_word` would have produced, with the game chosen and the counters written back. */
  lemma StartWordIsChooseWord(s: GameState, rawInput: string, graph: Graph)
    requires Trim(rawInput) == "2"
    ensures StartGameResponse(s, rawInput, graph)
      == AfterChooseWord(s).(gameChoice := Some(WordGame),
                             numberGameCount := Some(Count(s.numberGameCount)), wordGameCount := Some(Count(s.wordGameCount)))
  {
    StartWordLinesAreWordListLines(Join(WordList[1..], ", "));
  }

  /**
   * The response of `number_game_step`, or `None` when it raises. After a play-again prompt the
   * request goes to the graph as a retry; otherwise `guess_number` runs on the request with the
   * stripped, lower-cased input and the number game chosen, and a failure there is reported in the output.
   */
  function NumberGameStepResponse(s: GameState, rawInput: string, graph: Graph): (r: Option<GameState>)
    ensures var input := Lower(Trim(rawInput));
      AsksToPlayAgain(s.messages) ==> r == graph(s.(gameChoice := Some(Retry), userInput := input))
    ensures var input := Lower(Trim(rawInput));
      var s1 := s.(userInput := input, gameChoice := Some(NumberGame));
      !AsksToPlayAgain(s.messages) ==>
        && r.Some?
        && (s.numberGame.None? ==> r.value == s1.(messages := NumberTroubleLines))
        && (s.numberGame.Some? ==> r == AfterGuessNumber(s1))
        // the engine's own play-again branch cannot be reached from here: the game stays chosen
        && r.value.gameChoice == Some(NumberGame)
        && r.value.wordGame == s.wordGame && r.value.wordGameCount == s.wordGameCount
        && Count(s.numberGameCount) <= Count(r.value.numberGameCount) <= Count(s.numberGameCount) + 1
  {
    var input := Lower(Trim(rawInput));
    if AsksToPlayAgain(s.messages) then
      graph(s.(gameChoice := Some(Retry), userInput := input))
    else
      var s1 := s.(userInput := input, gameChoice := Some(NumberGame));
      match AfterGuessNumber(s1)
      case None => Some(s1.(messages := NumberTroubleLines))
      case Some(s2) => Some(s2)
  }

  /**
   * `number_game_step(request)`: `st` is the request's state. Off the play-again path the response is
   * `st` itself; on it `st` holds the retry choice and the input handed to the graph.
   */
  method NumberGameStep(st: Session, rawInput: string, graph: Graph) returns (response: Option<GameState>)
    modifies st
    ensures response == NumberGameStepResponse(old(st.Value()), rawInput, graph)
    ensures if AsksToPlayAgain(old(st.messages))
      then st.Value() == old(st.Value()).(gameChoice := Some(Retry), userInput := Lower(Trim(rawInput)))
      else response == Some(st.Value())
  {
    var userInput := Lower(Trim(rawInput));
    if AsksToPlayAgain(st.messages) {
      st.gameChoice := Some(Retry);
      st.userInput := userInput;
      return graph(st.Value());
    }
    st.userInput := userInput;
    if st.gameChoice != Some(NumberGame) {
      st.gameChoice := Some(NumberGame);
    }
    var ok := GuessNumber(st);
    if !ok {
      st.messages := NumberTroubleLines;
    }
    response := Some(st.Value());
  }

  /** The response of `/game/exit`: the end-of-session summary, then both counters reset to zero. */
  function AfterExitEndpoint(s: GameState): (r: GameState)
    ensures r.messages == [ThanksLine, SummaryLine(Count(s.numberGameCount), Count(s.wordGameCount))]
    ensures r.numberGameCount == Some(0) && r.wordGameCount == Some(0)
    ensures r == s.(messages := r.messages, numberGameCount := r.numberGameCount, wordGameCount := r.wordGameCount)
  {
    AfterExit(s).(numberGameCount := Some(0), wordGameCount := Some(0))
  }

  /** `exit_game_endpoint(request)`: the response is the request's state after `exit_game` and the reset. */
  method ExitGameEndpoint(st: Session) returns (response: GameState)
    modifies st
    ensures response == st.Value() == AfterExitEndpoint(old(st.Value()))
  {
    ExitGame(st);
    st.numberGameCount := Some(0);
    st.wordGameCount := Some(0);
    response := st.Value();
  }

  /**
   * The summary the exit endpoint prints names the counts as they were before the reset: a summary
   * line read back gives the request's counts.
   */
  lemma ExitEndpointReportsCounts(s: GameState, numberGames: nat, wordGames: nat)
    requires Count(s.numberGameCount) >= 0 && Count(s.wordGameCount) >= 0
    requires AfterExitEndpoint(s).messages[1] == SummaryLine(numberGames, wordGames)
    ensures numberGames == Count(s.numberGameCount) && wordGames == Count(s.wordGameCount)
  {
    SummaryLineDeterminesCounts(Count(s.numberGameCount), Count(s.wordGameCount), numberGames, wordGames);
  }

  /**
   * A player holding `secret` answers up to `steps` questions truthfully through `/game/number`,
   * stopping once the number has been announced; `None` when a step raised.
   */
  function PlayTruthfully(s: GameState, secret: int, steps: nat, graph: Graph): Option<GameState>
    decreases steps
  {
    if steps == 0 || s.numberGame.None? || s.numberGame.value.nextStep == Some(GuessedNumber) then Some(s)
    else
      match NumberGameStepResponse(s, Truthful(s.numberGame.value, secret), graph)
      case None => None
      case Some(next) => PlayTruthfully(next, secret, steps - 1, graph)
  }

  /**
   * `r` ends the number game begun in `s` with `secret` announced: the range closed on it, one more
   * number game counted, the number game still chosen, and the word game untouched.
   */
  predicate AnnouncedFrom(s: GameState, secret: int, r: GameState) {
    && s.numberGame.Some?
    && r.messages == GuessedLines(secret)
    && r.numberGame == Some(NumberGameAgent(secret, secret, s.numberGame.value.guess, Some(GuessedNumber)))
    && r.numberGameCount == Some(Count(s.numberGameCount) + 1)
    && r.gameChoice == Some(NumberGame)
    && r.wordGame == s.wordGame && r.wordGameCount == s.wordGameCount
  }

  /**
   * A game still guessing over an open range of width below 2^steps that holds the secret, showing
   * the question about the middle of that range (after the invitation, on the first one).
   */
  predicate ReadyToSearch(s: GameState, secret: int, steps: nat) {
    && s.numberGame.Some? && s.numberGame.value.nextStep == Some(Guessing)
    && s.numberGame.value.min <= secret <= s.numberGame.value.max
    && s.numberGame.value.min < s.numberGame.value.max
    && s.numberGame.value.max - s.numberGame.value.min < Pow2(steps)
    && ShowsQuestion(s.messages, s.numberGame.value)
  }

  /** The lines on show are the question about the middle of the agent's range, or the opening line of a fresh game. */
  predicate ShowsQuestion(messages: seq<string>, ng: NumberGameAgent) {
    messages == [QuestionLine(Mid(ng.min, ng.max))] || messages == [StartNumberLine]
  }

  /** A question on show is not read as asking to play again. */
  lemma ShownQuestionDoesNotAsk(messages: seq<string>, ng: NumberGameAgent)
    requires ShowsQuestion(messages, ng)
    ensures !AsksToPlayAgain(messages)
  {
    if messages == [StartNumberLine] {
      StartNumberLineDoesNotAsk(messages);
    } else {
      QuestionLineDoesNotAsk(Mid(ng.min, ng.max));
    }
  }

  /**
   * Through the handler, truthful answers to an open range of width below 2^steps that holds the
   * secret end with the secret announced, one more number game counted, and the word game untouched.
   */
  lemma {:induction false} PlayTruthfullyAnnouncesSecret(s: GameState, secret: int, steps: nat, graph: Graph)
    requires ReadyToSearch(s, secret, steps)
    ensures PlayTruthfully(s, secret, steps, graph).Some?
    ensures AnnouncedFrom(s, secret, PlayTruthfully(s, secret, steps, graph).value)
    decreases steps
  {
    var ng := s.numberGame.value;
    var narrowed := Narrow(ng, Truthful(ng, secret));
    if narrowed.min < narrowed.max {
      var next := OpenStepContinues(s, secret, steps, graph);
      PlayTruthfullyAnnouncesSecret(next, secret, steps - 1, graph);
      AnnouncedCarries(next, s, secret, PlayTruthfully(next, secret, steps - 1, graph).value);
    } else {
      ClosedStepAnnounces(s, secret, steps, graph);
    }
  }

  /** An answer that closes the range announces the secret, and the player stops there. */
  lemma ClosedStepAnnounces(s: GameState, secret: int, steps: nat, graph: Graph)
    requires ReadyToSearch(s, secret, steps)
    requires var ng := s.numberGame.value; Narrow(ng, Truthful(ng, secret)).min >= Narrow(ng, Truthful(ng, secret)).max
    ensures PlayTruthfully(s, secret, steps, graph).Some?
    ensures AnnouncedFrom(s, secret, PlayTruthfully(s, secret, steps, graph).value)
  {
    var ng := s.numberGame.value;
    ShownQuestionDoesNotAsk(s.messages, ng);
    TruthfulStep(s, secret, graph);
    assert steps > 0;
    var next := NumberGameStepResponse(s, Truthful(ng, secret), graph).value;
    PlayTruthfullyUnfolds(s, secret, steps, graph);
    PlayTruthfullyStops(next, secret, steps - 1, graph);
  }

  /**
   * An answer that leaves the range open brings a state `next` that is ready to search with one step
   * fewer, from which the player goes on, with the guess, the counters and the word game as they were.
   */
  lemma OpenStepContinues(s: GameState, secret: int, steps: nat, graph: Graph) returns (next: GameState)
    requires ReadyToSearch(s, secret, steps)
    requires var ng := s.numberGame.value; Narrow(ng, Truthful(ng, secret)).min < Narrow(ng, Truthful(ng, secret)).max
    ensures steps > 0 && ReadyToSearch(next, secret, steps - 1)
    ensures PlayTruthfully(s, secret, steps, graph) == PlayTruthfully(next, secret, steps - 1, graph)
    ensures next.numberGame.value.guess == s.numberGame.value.guess
    ensures next.numberGameCount == s.numberGameCount
    ensures next.wordGame == s.wordGame && next.wordGameCount == s.wordGameCount
  {
    var ng := s.numberGame.value;
    var narrowed := Narrow(ng, Truthful(ng, secret));
    ShownQuestionDoesNotAsk(s.messages, ng);
    TruthfulStep(s, secret, graph);
    NarrowShrinks(ng, Truthful(ng, secret));
    NarrowKeepsSecret(ng, secret);
    HalvedWidthFits(ng.max - ng.min, narrowed.max - narrowed.min, steps);
    next := NumberGameStepResponse(s, Truthful(ng, secret), graph).value;
    PlayTruthfullyUnfolds(s, secret, steps, graph);
  }

  /** The announcement reached from `next` is the one reached from `s` when the two agree on the guess, the counters and the word game. */
  lemma AnnouncedCarries(next: GameState, s: GameState, secret: int, r: GameState)
    requires AnnouncedFrom(next, secret, r) && s.numberGame.Some?
    requires next.numberGame.value.guess == s.numberGame.value.guess
    requires next.numberGameCount == s.numberGameCount
    requires next.wordGame == s.wordGame && next.wordGameCount == s.wordGameCount
    ensures AnnouncedFrom(s, secret, r)
  {
  }

  /** A range of width below 2^steps, halved, fits below 2^(steps - 1). */
  lemma HalvedWidthFits(width: int, halved: int, steps: nat)
    requires 0 < width < Pow2(steps) && halved <= width / 2
    ensures steps > 0 && halved < Pow2(steps - 1)
  {
  }

  /** An answer to a game still guessing is one step, after which the player goes on with one step fewer. */
  lemma PlayTruthfullyUnfolds(s: GameState, secret: int, steps: nat, graph: Graph)
    requires steps > 0 && s.numberGame.Some? && s.numberGame.value.nextStep == Some(Guessing)
    requires NumberGameStepResponse(s, Truthful(s.numberGame.value, secret), graph).Some?
    ensures PlayTruthfully(s, secret, steps, graph)
      == PlayTruthfully(NumberGameStepResponse(s, Truthful(s.numberGame.value, secret), graph).value, secret, steps - 1, graph)
  {
  }

  /** Once the number is announced the player stops. */
  lemma PlayTruthfullyStops(s: GameState, secret: int, steps: nat, graph: Graph)
    requires s.numberGame.Some? && s.numberGame.value.nextStep == Some(GuessedNumber)
    ensures PlayTruthfully(s, secret, steps, graph) == Some(s)
  {
  }

  /**
   * One truthful answer through the handler narrows the range; a closed range is announced and
   * counted, an open one brings the next question, which is not read as asking to play again.
   */
  lemma TruthfulStep(s: GameState, secret: int, graph: Graph)
    requires s.numberGame.Some? && s.numberGame.value.nextStep == Some(Guessing)
    requires s.numberGame.value.min <= secret <= s.numberGame.value.max
    requires s.numberGame.value.min < s.numberGame.value.max
    requires !AsksToPlayAgain(s.messages)
    ensures var ng := s.numberGame.value;
      var narrowed := Narrow(ng, Truthful(ng, secret));
      var r := NumberGameStepResponse(s, Truthful(ng, secret), graph);
      && r.Some? && r.value.gameChoice == Some(NumberGame)
      && r.value.wordGame == s.wordGame && r.value.wordGameCount == s.wordGameCount
      && (narrowed.min >= narrowed.max ==>
            && r.value.numberGame == Some(NumberGameAgent(secret, secret, ng.guess, Some(GuessedNumber)))
            && r.value.numberGameCount == Some(Count(s.numberGameCount) + 1)
            && r.value.messages == GuessedLines(secret))
      && (narrowed.min < narrowed.max ==>
            && r.value.numberGame == Some(narrowed.(nextStep := Some(Guessing)))
            && r.value.numberGameCount == s.numberGameCount
            && r.value.messages == [QuestionLine(Mid(narrowed.min, narrowed.max))])
  {
    var ng := s.numberGame.value;
    var answer := Truthful(ng, secret);
    TrimUnpadded(answer);
    assert Lower(answer) == answer;
    var narrowed := Narrow(ng, answer);
    NarrowKeepsSecret(ng, secret);
    if narrowed.min >= narrowed.max {
      assert narrowed == NumberGameAgent(secret, secret, ng.guess, ng.nextStep);
    }
  }

  /**
   * The number game end to end: after "1" at `/game/start`, six truthful answers at `/game/number`
   * announce the player's number, whatever it is in `[1, 50]`, and count one more number game.
   */
  lemma StartThenSixAnswersFindNumber(s: GameState, secret: int, graph: Graph)
    requires 1 <= secret <= 50
    ensures var played := PlayTruthfully(StartGameResponse(s, "1", graph), secret, 6, graph);
      && played.Some?
      && played.value.messages == GuessedLines(secret)
      && played.value.numberGameCount == Some(Count(s.numberGameCount) + 1)
  {
    TrimUnpadded("1");
    assert Pow2(6) == 64;
    PlayTruthfullyAnnouncesSecret(StartGameResponse(s, "1", graph), secret, 6, graph);
  }

  /** Once the number is announced, the next answer, whatever it is, is handed to the graph as a retry. */
  lemma AnnouncementLeadsToRetry(s: GameState, n: int, rawInput: string, graph: Graph)
    requires s.messages == GuessedLines(n)
    ensures NumberGameStepResponse(s, rawInput, graph)
      == graph(s.(gameChoice := Some(Retry), userInput := Lower(Trim(rawInput))))
  {
    GuessedLinesAsk(n);
  }
}
