/**
 * The number-guessing engine: `choose_number` and `guess_number`, a binary search over
 * `[min, max]` driven by the player's y/n answers to "is your number greater than mid?".
 */
module NumberGame {
  import opened Wrappers
  import opened Text
  import opened GameStates

  const ChooseNumberLine := "Think of a number between 1 and 50. Press enter when ready."
  const PlayAgainLine := "Would you like to play again?"
  const DoneLines := ["Done guessing your number.", "Would you like to play another game? (yes/no)"]

  /** The range a new number game starts from. */
  const FreshAgent := NumberGameAgent(1, 50, 0, Some(Guessing))

  /** The state after `choose_number`: a fresh `[1, 50]` sub-state when there is none, else only `next_step` reset. */
  function AfterChooseNumber(s: GameState): (r: GameState)
    ensures r.messages == [ChooseNumberLine]
    ensures s.numberGame.None? ==> r.numberGame == Some(FreshAgent)
    ensures s.numberGame.Some? ==> r.numberGame == Some(s.numberGame.value.(nextStep := Some(Guessing)))
    ensures r == s.(messages := r.messages, numberGame := r.numberGame)
  {
    var ng := if s.numberGame.None? then FreshAgent else s.numberGame.value.(nextStep := Some(Guessing));
    s.(messages := [ChooseNumberLine], numberGame := Some(ng))
  }

  /** `choose_number(state)`. */
  method ChooseNumber(st: Session)
    modifies st
    ensures st.Value() == AfterChooseNumber(old(st.Value()))
  {
    st.messages := [ChooseNumberLine];
    if st.numberGame.None? {
      st.numberGame := Some(NumberGameAgent(1, 50, 0, Some(Guessing)));
    } else {
      st.numberGame := Some(st.numberGame.value.(nextStep := Some(Guessing)));
    }
  }

  /** `(min + max) // 2`: Python's floor division, which Dafny's `/` agrees with for a positive divisor. */
  function Mid(lo: int, hi: int): int {
    (lo + hi) / 2
  }

  /** The range after an answer: "y" raises `min` past the midpoint, "n" lowers `max` to it, anything else keeps it. */
  function Narrow(ng: NumberGameAgent, input: string): (r: NumberGameAgent)
    ensures r == ng.(min := r.min, max := r.max)
    ensures input == "y" ==> r.min == Mid(ng.min, ng.max) + 1 && r.max == ng.max
    ensures input == "n" ==> r.max == Mid(ng.min, ng.max) && r.min == ng.min
    ensures input != "y" && input != "n" ==> r == ng
  {
    if input == "y" then ng.(min := Mid(ng.min, ng.max) + 1)
    else if input == "n" then ng.(max := Mid(ng.min, ng.max))
    else ng
  }

  /** The question asked while the range is still open. */
  function QuestionLine(mid: int): string {
    "Is your number greater than " + IntToString(mid) + "? (y/n)"
  }

  /** The announcement once the range has closed. */
  function GuessedLines(n: int): seq<string> {
    ["Your number is " + IntToString(n) + "!", PlayAgainLine]
  }

  /**
   * The state after `guess_number`, or `None` when it raises (a null sub-state).
   * After a play-again prompt the answer only decides `game_choice` and the sub-state is dropped;
   * otherwise the range is narrowed by the answer, and once it has closed the number is announced
   * and `number_game_count` grows by one, else the next question is asked.
   */
  function AfterGuessNumber(s: GameState): (r: Option<GameState>)
    ensures r.None? <==> s.numberGame.None?
    ensures r.Some? && AsksToPlayAgain(s.messages) ==>
      && r.value.gameChoice == (if IsYes(Lower(s.userInput)) then Some(Retry) else None)
      && r.value.messages == DoneLines
      && r.value == s.(gameChoice := r.value.gameChoice, numberGame := None, messages := DoneLines)
    ensures r.Some? && !AsksToPlayAgain(s.messages) ==>
      var ng := Narrow(s.numberGame.value, Lower(s.userInput));
      && r.value.numberGame.Some?
      && r.value.numberGame.value == ng.(nextStep := r.value.numberGame.value.nextStep)
      && r.value == s.(numberGame := r.value.numberGame, numberGameCount := r.value.numberGameCount,
                       messages := r.value.messages)
      && (ng.min >= ng.max ==>
            && r.value.numberGameCount == Some(Count(s.numberGameCount) + 1)
            && r.value.messages == GuessedLines(ng.min)
            && r.value.numberGame.value.nextStep == Some(GuessedNumber))
      && (ng.min < ng.max ==>
            && r.value.numberGameCount == s.numberGameCount
            && r.value.messages == [QuestionLine(Mid(ng.min, ng.max))]
            && r.value.numberGame.value.nextStep == Some(Guessing))
  {
    if s.numberGame.None? then None
    else
      var input := Lower(s.userInput);
      if AsksToPlayAgain(s.messages) then
        Some(s.(gameChoice := if IsYes(input) then Some(Retry) else None, numberGame := None, messages := DoneLines))
      else
        var ng := Narrow(s.numberGame.value, input);
        if ng.min >= ng.max then
          Some(s.(numberGameCount := Some(Count(s.numberGameCount) + 1), messages := GuessedLines(ng.min),
                  numberGame := Some(ng.(nextStep := Some(GuessedNumber)))))
        else
          Some(s.(messages := [QuestionLine(Mid(ng.min, ng.max))], numberGame := Some(ng.(nextStep := Some(Guessing)))))
  }

  /**
   * `guess_number(state)`, updating the session in place; `ok` is false when it raises,
   * which `ng.get` on a null sub-state does before anything is written.
   */
  method GuessNumber(st: Session) returns (ok: bool)
    modifies st
    ensures ok == AfterGuessNumber(old(st.Value())).Some?
    ensures st.Value() == AfterGuessNumber(old(st.Value())).GetOr(old(st.Value()))
  {
    if st.numberGame.None? {
      return false;
    }
    var ng := st.numberGame.value;
    var userInput := Lower(st.userInput);
    var messages: seq<string> := [];
    if AsksToPlayAgain(st.messages) {
      st.gameChoice := if userInput == "yes" || userInput == "y" then Some(Retry) else None;
      st.numberGame := None;
      st.messages := ["Done guessing your number.", "Would you like to play another game? (yes/no)"];
      return true;
    }
    if userInput == "y" || userInput == "n" {
      var mid := Mid(ng.min, ng.max);
      if userInput == "y" {
        ng := ng.(min := mid + 1);
      } else {
        ng := ng.(max := mid);
      }
      st.numberGame := Some(ng);
    }
    if ng.min >= ng.max {
      st.numberGameCount := Some(Count(st.numberGameCount) + 1);
      messages := messages + ["Your number is " + IntToString(ng.min) + "!"];
      messages := messages + ["Would you like to play again?"];
      ng := ng.(nextStep := Some(GuessedNumber));
    } else {
      var mid := Mid(ng.min, ng.max);
      messages := messages + [QuestionLine(mid)];
      ng := ng.(nextStep := Some(Guessing));
    }
    // `ng` is the sub-state dictionary itself, so its `next_step` write lands in the session.
    st.numberGame := Some(ng);
    st.messages := messages;
    ok := true;
  }

  /** A question about an open range has no letter 'p' in it. */
  lemma QuestionLineWithoutP(mid: int)
    ensures 'p' !in QuestionLine(mid) && 'P' !in QuestionLine(mid)
  {
    var digits := IntToString(mid);
    assert forall i :: 0 <= i < |digits| ==> digits[i] == '-' || IsDigit(digits[i]);
    assert 'p' !in "Is your number greater than " && 'P' !in "Is your number greater than ";
    assert 'p' !in "? (y/n)" && 'P' !in "? (y/n)";
  }

  /** A question about an open range is never mistaken for a play-again prompt. */
  lemma QuestionLineDoesNotAsk(mid: int)
    ensures !AsksToPlayAgain([QuestionLine(mid)])
  {
    QuestionLineWithoutP(mid);
    NoLetterNoPlayAgain([QuestionLine(mid)], 'p', 'P');
  }

  /**
   * The closing prompt, lower-cased, contains "play again". The line is passed as a parameter pinned
   * by `requires`, so its characters are unfolded only inside this lemma and not wherever the
   * constant is in scope.
   */
  lemma PlayAgainLineAsks(line: string)
    requires line == PlayAgainLine
    ensures Contains(Lower(line), "play again")
  {
    assert line[18..28] == "play again";
    LowerKeepsUncapitalisedSlice(line, 18, 28);
    OccursContains(Lower(line), "play again", 18);
  }

  /** The announcement of the number ends with a prompt that the next step reads as asking to play again. */
  lemma GuessedLinesAsk(n: int)
    ensures AsksToPlayAgain(GuessedLines(n))
  {
    PlayAgainLineAsks(GuessedLines(n)[1]);
  }

  /** A y/n answer to an open range keeps it ordered and at least halves its width. */
  lemma NarrowShrinks(ng: NumberGameAgent, input: string)
    requires ng.min < ng.max
    requires input == "y" || input == "n"
    ensures Narrow(ng, input).min <= Narrow(ng, input).max
    ensures Narrow(ng, input).max - Narrow(ng, input).min <= (ng.max - ng.min) / 2 < ng.max - ng.min
  {
  }

  /** The answer a player holding `secret` gives: "y" exactly when the secret is above the midpoint. */
  function Truthful(ng: NumberGameAgent, secret: int): string {
    if secret > Mid(ng.min, ng.max) then "y" else "n"
  }

  /** A truthful answer keeps the secret inside the range. */
  lemma NarrowKeepsSecret(ng: NumberGameAgent, secret: int)
    requires ng.min <= secret <= ng.max
    ensures Narrow(ng, Truthful(ng, secret)).min <= secret <= Narrow(ng, Truthful(ng, secret)).max
  {
  }

  /** The range after at most `answers` truthful answers, stopping as soon as it has closed. */
  function Search(ng: NumberGameAgent, secret: int, answers: nat): NumberGameAgent
    decreases answers
  {
    if ng.min >= ng.max || answers == 0 then ng
    else Search(Narrow(ng, Truthful(ng, secret)), secret, answers - 1)
  }

  function Pow2(k: nat): nat {
    if k == 0 then 1 else 2 * Pow2(k - 1)
  }

  /** Binary search: a range of width below 2^k holding the secret closes on it within k truthful answers. */
  lemma {:induction false} SearchFindsSecret(ng: NumberGameAgent, secret: int, k: nat)
    requires ng.min <= secret <= ng.max
    requires ng.max - ng.min < Pow2(k)
    ensures Search(ng, secret, k).min == secret == Search(ng, secret, k).max
    decreases k
  {
    if ng.min < ng.max {
      var next := Narrow(ng, Truthful(ng, secret));
      NarrowShrinks(ng, Truthful(ng, secret));
      NarrowKeepsSecret(ng, secret);
      SearchFindsSecret(next, secret, k - 1);
    }
  }

  /** From the fresh range `[1, 50]`, six truthful answers always pin down the player's number. */
  lemma FreshRangeClosesWithinSix(secret: int)
    requires 1 <= secret <= 50
    ensures Search(FreshAgent, secret, 6).min == secret == Search(FreshAgent, secret, 6).max
  {
    assert Pow2(6) == 64;
    SearchFindsSecret(FreshAgent, secret, 6);
  }
}
