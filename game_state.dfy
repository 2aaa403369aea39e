/**
 * The session record carried across every step of the game server, with the shapes of
 * its two per-game sub-records, the initial session, and `Session`: the same record as
 * an object whose fields the game nodes and the HTTP handlers overwrite in place.
 */
module GameStates {
  import opened Wrappers
  import opened Text

  /** `game_choice`: which engine owns the turn; a missing key or null is `None`. */
  datatype Choice = NumberGame | WordGame | Retry

  /** `next_step` of the number game. */
  datatype NextStep = Start | Guessing | GuessedNumber

  /** `NumberGameAgent`: the range `[min, max]` still holding the player's number. */
  datatype NumberGameAgent = NumberGameAgent(min: int, max: int, guess: int, nextStep: Option<NextStep>)

  /**
   * `WordGameAgent`: the candidate words, the question budget, the questions asked so far
   * and the answers recorded, the final guess, and the questions already used (for de-duplication).
   * `wordListShown` is the extra `word_list_shown` key some constructors add (`None` when absent).
   */
  datatype WordGameAgent = WordGameAgent(
    words: seq<string>,
    maxQuestions: int,
    questionIndex: int,
    questions: seq<string>,
    answers: seq<string>,
    guess: Option<string>,
    askedSet: set<string>,
    wordListShown: Option<bool>)

  /**
   * `GameState`. A sub-state of `None` is a key present with a null value (every session
   * starts with all keys present). The counters keep key absence because one handler tests it;
   * a missing `__user_input__` reads as "" and missing `__messages__` as [] everywhere.
   */
  datatype GameState = GameState(
    gameChoice: Option<Choice>,
    numberGame: Option<NumberGameAgent>,
    wordGame: Option<WordGameAgent>,
    wordGameCount: Option<int>,
    numberGameCount: Option<int>,
    userInput: string,
    messages: seq<string>)

  /** `state.get("..._count", 0)`. */
  function Count(c: Option<int>): int {
    c.GetOr(0)
  }

  /** `create_initial_state`: nothing chosen, no sub-state, both counters at zero, no output. */
  function CreateInitialState(): (s: GameState)
    ensures s.gameChoice == None
    ensures s.numberGame == None && s.wordGame == None
    ensures s.numberGameCount == Some(0) && s.wordGameCount == Some(0)
    ensures s.messages == [] && s.userInput == ""
  {
    GameState(None, None, None, Some(0), Some(0), "", [])
  }

  /**
   * Some earlier output asks whether to play again: a message that, lower-cased, contains
   * "play again" or "play another game".
   */
  predicate AsksToPlayAgain(messages: seq<string>) {
    exists i :: 0 <= i < |messages| &&
      (Contains(Lower(messages[i]), "play again") || Contains(Lower(messages[i]), "play another game"))
  }

  /**
   * A line that lacks some letter both phrases contain, `c` in lower case and `upper` in capitals, is
   * not read as asking to play again.
   */
  lemma LineWithoutLetterDoesNotAsk(line: string, c: char, upper: char)
    requires 'a' <= c <= 'z' && upper as int == c as int - 'a' as int + 'A' as int
    requires c in "play again" && c in "play another game"
    requires c !in line && upper !in line
    ensures !Contains(Lower(line), "play again") && !Contains(Lower(line), "play another game")
  {
    assert (c as int - 'a' as int + 'A' as int) as char == upper;
    LowerKeepsAbsent(line, c);
    MissingCharNotContained(Lower(line), "play again", c);
    MissingCharNotContained(Lower(line), "play another game", c);
  }

  /** Output none of whose lines holds, in either case, a letter both phrases contain never asks to play again. */
  lemma NoLetterNoPlayAgain(messages: seq<string>, c: char, upper: char)
    requires 'a' <= c <= 'z' && upper as int == c as int - 'a' as int + 'A' as int
    requires c in "play again" && c in "play another game"
    requires forall i :: 0 <= i < |messages| ==> c !in messages[i] && upper !in messages[i]
    ensures !AsksToPlayAgain(messages)
  {
    forall i | 0 <= i < |messages|
      ensures !Contains(Lower(messages[i]), "play again") && !Contains(Lower(messages[i]), "play another game")
    {
      LineWithoutLetterDoesNotAsk(messages[i], c, upper);
    }
  }

  /** The test is an `any` over the lines: output asks to play again exactly when one of its parts does. */
  lemma AsksToPlayAgainConcat(a: seq<string>, b: seq<string>)
    ensures AsksToPlayAgain(a + b) <==> AsksToPlayAgain(a) || AsksToPlayAgain(b)
  {
    if AsksToPlayAgain(a + b) {
      var i :| 0 <= i < |a + b| &&
        (Contains(Lower((a + b)[i]), "play again") || Contains(Lower((a + b)[i]), "play another game"));
      if i >= |a| {
        assert (a + b)[i] == b[i - |a|];
      }
    }
    if AsksToPlayAgain(a) {
      var j :| 0 <= j < |a| &&
        (Contains(Lower(a[j]), "play again") || Contains(Lower(a[j]), "play another game"));
      assert (a + b)[j] == a[j];
    }
    if AsksToPlayAgain(b) {
      var j :| 0 <= j < |b| &&
        (Contains(Lower(b[j]), "play again") || Contains(Lower(b[j]), "play another game"));
      assert (a + b)[|a| + j] == b[j];
    }
  }

  /** Python's `x in ["yes", "y"]`. */
  predicate IsYes(input: string) {
    input == "yes" || input == "y"
  }

  /** The session dictionary, updated in place by the game nodes and the HTTP handlers. */
  class Session {
    var gameChoice: Option<Choice>
    var numberGame: Option<NumberGameAgent>
    var wordGame: Option<WordGameAgent>
    var wordGameCount: Option<int>
    var numberGameCount: Option<int>
    var userInput: string
    var messages: seq<string>

    /** The record the dictionary currently holds. */
    function Value(): GameState
      reads this
    {
      GameState(gameChoice, numberGame, wordGame, wordGameCount, numberGameCount, userInput, messages)
    }

    /** A new session dictionary holding `create_initial_state()`. */
    constructor Initial()
      ensures Value() == CreateInitialState()
    {
      gameChoice, numberGame, wordGame := None, None, None;
      wordGameCount, numberGameCount := Some(0), Some(0);
      userInput, messages := "", [];
    }
  }
}
