/** `exit_game`: replaces the pending output with the end-of-session summary. */
module ExitNode {
  import opened Wrappers
  import opened Text
  import opened GameStates

  const ThanksLine := "Thanks for playing!"

  /** The second summary line, naming how many games of each kind were played. */
  function SummaryLine(numberGames: int, wordGames: int): string {
    "You played " + IntToString(numberGames) + " Number Guessing Games and "
      + IntToString(wordGames) + " Word Clue Guesser Games in this session."
  }

  /** The state after `exit_game`: exactly two lines of output, every other key as it was. */
  function AfterExit(s: GameState): (r: GameState)
    ensures r.messages == [ThanksLine, SummaryLine(Count(s.numberGameCount), Count(s.wordGameCount))]
    ensures r == s.(messages := r.messages)
  {
    s.(messages := [ThanksLine, SummaryLine(Count(s.numberGameCount), Count(s.wordGameCount))])
  }

  /** `exit_game(state)`: writes `__messages__` into the session. */
  method ExitGame(st: Session)
    modifies st
    ensures st.Value() == AfterExit(old(st.Value()))
  {
    var numberGames := Count(st.numberGameCount);
    var wordGames := Count(st.wordGameCount);
    st.messages := [ThanksLine, SummaryLine(numberGames, wordGames)];
  }

  /** Exiting twice is exiting once: the summary depends only on keys `exit_game` does not write. */
  lemma ExitIdempotent(s: GameState)
    ensures AfterExit(AfterExit(s)) == AfterExit(s)
  {
  }

  /**
   * The summary line determines the two counts it was built from (for counts that are not
   * negative, as the counters only ever are): the number-game count comes first.
   */
  lemma SummaryLineDeterminesCounts(n: nat, w: nat, n': nat, w': nat)
    requires SummaryLine(n, w) == SummaryLine(n', w')
    ensures n == n' && w == w'
  {
    var pre, mid, post := "You played ", " Number Guessing Games and ", " Word Clue Guesser Games in this session.";
    assert !IsDigit(mid[0]) && !IsDigit(post[0]);
    TwoNumbersDetermined(pre, NatToString(n), mid, NatToString(w), post, NatToString(n'), NatToString(w'));
    NatToStringInjective(n, n');
    NatToStringInjective(w, w');
  }

  /** In `pre + a + mid + b + post`, with `a`, `b` digit strings and `mid`, `post` starting with a non-digit, `a` and `b` are determined. */
  lemma TwoNumbersDetermined(pre: string, a: string, mid: string, b: string, post: string, a': string, b': string)
    requires forall i :: 0 <= i < |a| ==> IsDigit(a[i])
    requires forall i :: 0 <= i < |a'| ==> IsDigit(a'[i])
    requires forall i :: 0 <= i < |b| ==> IsDigit(b[i])
    requires forall i :: 0 <= i < |b'| ==> IsDigit(b'[i])
    requires mid != [] && !IsDigit(mid[0]) && post != [] && !IsDigit(post[0])
    requires pre + a + mid + b + post == pre + a' + mid + b' + post
    ensures a == a' && b == b'
  {
    var x, x' := pre + a + mid + b + post, pre + a' + mid + b' + post;
    assert x == pre + a + (mid + b + post);
    assert x' == pre + a' + (mid + b' + post);
    FirstNumberDetermined(pre, a, mid + b + post, a', mid + b' + post);
    assert x == (pre + a + mid) + b + post;
    assert x' == (pre + a + mid) + b' + post;
    FirstNumberDetermined(pre + a + mid, b, post, b', post);
  }

  /** Every character of the `a` part of `pre + a + rest` is a digit, and the next one is not. */
  lemma DigitRun(pre: string, a: string, rest: string)
    requires forall i :: 0 <= i < |a| ==> IsDigit(a[i])
    requires rest != [] && !IsDigit(rest[0])
    ensures forall j :: |pre| <= j < |pre| + |a| ==> IsDigit((pre + a + rest)[j])
    ensures !IsDigit((pre + a + rest)[|pre| + |a|])
  {
    var x := pre + a + rest;
    forall j | |pre| <= j < |pre| + |a|
      ensures IsDigit(x[j])
    {
      assert x[j] == a[j - |pre|];
    }
    assert x[|pre| + |a|] == rest[0];
  }

  /**
   * In `pre + a + rest`, where `a` is all digits and `rest` starts with a non-digit, the
   * digit string `a` is determined.
   */
  lemma FirstNumberDetermined(pre: string, a: string, rest: string, a': string, rest': string)
    requires forall i :: 0 <= i < |a| ==> IsDigit(a[i])
    requires forall i :: 0 <= i < |a'| ==> IsDigit(a'[i])
    requires rest != [] && !IsDigit(rest[0]) && rest' != [] && !IsDigit(rest'[0])
    requires pre + a + rest == pre + a' + rest'
    ensures a == a'
  {
    var x := pre + a + rest;
    DigitRun(pre, a, rest);
    DigitRun(pre, a', rest');
    assert |a| == |a'|;
    assert a == x[|pre|..|pre| + |a|] == a';
  }
}
