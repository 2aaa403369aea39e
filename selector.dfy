/**
 * `game_selector`: the graph's entry node. It dispatches on `game_choice` first and, when no game
 * is chosen, on the stripped input token ("1", "2", empty, anything else).
 */
module Selector {
  import opened Wrappers
  import opened Text
  import opened GameStates
  import opened ExitNode
  import opened WordGame

  const InvalidChoiceLine := "Invalid choice. Please select a valid game option."
  const BackToSelectionLine := "Returning to game selection. Please select a game."
  const GoodbyeLine := "Thanks for playing! Goodbye!"

  /** The number sub-state the selector creates: `[1, 50]`, waiting to start. */
  const SelectorNumberAgent := NumberGameAgent(1, 50, 0, Some(Start))

  /** The word sub-state the selector creates (it carries no `word_list_shown` key). */
  const SelectorWordAgent := WordGameAgent(WordList, MaxQuestions, 0, [], [], None, {}, None)

  /**
   * The state after `game_selector`. The counters and the input are never touched, and the output
   * is replaced only by a non-empty list of lines.
   */
  function AfterGameSelector(s: GameState): (r: GameState)
    ensures r.numberGameCount == s.numberGameCount && r.wordGameCount == s.wordGameCount
    ensures r.userInput == s.userInput
    ensures r.messages == s.messages || r.messages != []
    ensures (s.gameChoice == Some(WordGame) || s.gameChoice == Some(NumberGame)) ==>
      && (s.messages != [] ==> r == s)
      && (s.messages == [] ==>
            r == s.(messages := [if s.gameChoice == Some(WordGame) then "Continuing Word Game" else "Continuing Number Game"]))
    ensures s.gameChoice == Some(Retry) ==>
      r == s.(gameChoice := None, messages := [if IsYes(Lower(Trim(s.userInput))) then BackToSelectionLine else GoodbyeLine])
    ensures s.gameChoice == None && Trim(s.userInput) == "1" ==>
      r == s.(gameChoice := Some(NumberGame), numberGame := Some(SelectorNumberAgent), wordGame := None,
              messages := ["Starting Number Guessing Game!"])
    ensures s.gameChoice == None && Trim(s.userInput) == "2" ==>
      r == s.(gameChoice := Some(WordGame), wordGame := Some(SelectorWordAgent), numberGame := None,
              messages := ["Starting Word Clue Guesser Game!"])
    ensures s.gameChoice == None && Trim(s.userInput) == "" ==> r == AfterExit(s)
    ensures s.gameChoice == None && Trim(s.userInput) !in {"1", "2", ""} ==>
      r == s.(messages := [InvalidChoiceLine])
  {
    var input := Trim(s.userInput);
    match s.gameChoice
    case Some(WordGame) =>
      if s.messages == [] then s.(messages := ["Continuing Word Game"]) else s
    case Some(NumberGame) =>
      if s.messages == [] then s.(messages := ["Continuing Number Game"]) else s
    case Some(Retry) =>
      s.(gameChoice := None, messages := [if IsYes(Lower(input)) then BackToSelectionLine else GoodbyeLine])
    case None =>
      if input == "1" then
        s.(gameChoice := Some(NumberGame), numberGame := Some(SelectorNumberAgent), wordGame := None,
           messages := ["Starting Number Guessing Game!"])
      else if input == "2" then
        s.(gameChoice := Some(WordGame), wordGame := Some(SelectorWordAgent), numberGame := None,
           messages := ["Starting Word Clue Guesser Game!"])
      else if input == "" then
        AfterExit(s)
      else
        s.(gameChoice := None, messages := [InvalidChoiceLine])
  }

  /** `game_selector(state)`, updating the session step by step. */
  method GameSelector(st: Session)
    modifies st
    ensures st.Value() == AfterGameSelector(old(st.Value()))
  {
    ghost var before := st.Value();
    var userInput := Trim(st.userInput);
    var messages: seq<string> := [];
    if st.gameChoice == Some(WordGame) {
      if st.messages == [] {
        messages := messages + ["Continuing Word Game"];
      } else {
        return;
      }
    } else if st.gameChoice == Some(NumberGame) {
      if st.messages == [] {
        messages := messages + ["Continuing Number Game"];
      } else {
        return;
      }
    } else if st.gameChoice == Some(Retry) {
      st.gameChoice := None;
      if Lower(userInput) == "yes" || Lower(userInput) == "y" {
        messages := messages + [BackToSelectionLine];
      } else {
        messages := messages + [GoodbyeLine];
      }
    } else if userInput == "1" {
      st.gameChoice, st.numberGame, st.wordGame := Some(NumberGame), Some(NumberGameAgent(1, 50, 0, Some(Start))), None;
      messages := messages + ["Starting Number Guessing Game!"];
    } else if userInput == "2" {
      var words := ["apple", "kiwi", "desk", "chair", "car", "pen"];
      assert WordGameAgent(words, 5, 0, [], [], None, {}, None) == SelectorWordAgent;
      st.gameChoice := Some(WordGame);
      st.wordGame := Some(WordGameAgent(words, 5, 0, [], [], None, {}, None));
      st.numberGame := None;
      messages := messages + ["Starting Word Clue Guesser Game!"];
    } else if userInput == "" {
      ExitGame(st);
      return;
    } else {
      st.gameChoice := None;
      messages := messages + [InvalidChoiceLine];
    }
    if messages != [] {
      st.messages := messages;
    }
    assert st.Value() == AfterGameSelector(before);
  }
}
