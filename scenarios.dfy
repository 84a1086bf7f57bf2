/** Concrete games: the rendered displays of a word and a phrase, whole
    games driven through the class, and what the reveal loop does to the
    space of a phrase. */
module HangmanScenarios {
  import opened Text
  import opened Hangman

  /** A word starts as one blank per letter; the space of a phrase shows as
      a space, which the join surrounds with separators. */
  lemma InitialDisplays()
    ensures Join(InitialSymbols("test")) == "_ _ _ _"
    ensures Join(InitialSymbols("test phrase")) == "_ _ _ _   _ _ _ _ _ _"
  {
    JoinLayout(InitialSymbols("test"), "_ _ _ _");
    JoinLayout(InitialSymbols("test phrase"), "_ _ _ _   _ _ _ _ _ _");
  }

  /** Once 't' is guessed, "test" shows both of its t's. */
  lemma DisplayAfterT()
    ensures Join(Mask("test", {'t'})) == "t _ _ t"
  {
    assert Mask("test", {'t'}) == ['t', '_', '_', 't'];
    JoinLayout(['t', '_', '_', 't'], "t _ _ t");
  }

  /** As written, the reveal loop reads the phrase's stripped display, which
      has lost the space's symbol: the first correct guess on "test phrase"
      puts a blank where the space was. */
  lemma PhraseSpaceBecomesBlank()
    ensures |RemoveSpaces(Join(InitialSymbols("test phrase")))| == |"test phrase"| - 1
    ensures "test phrase"[4] == ' '
    ensures Revealed("test phrase", RemoveSpaces(Join(InitialSymbols("test phrase"))), 't')[4] == '_'
  {
    var syms := InitialSymbols("test phrase");
    var blanks4: seq<char>, blanks6: seq<char> := ['_', '_', '_', '_'], ['_', '_', '_', '_', '_', '_'];
    assert syms == blanks4 + [' '] + blanks6;
    StripJoinSeparators(syms);
    RemoveSpacesAppend(blanks4 + [' '], blanks6);
    RemoveSpacesAppend(blanks4, [' ']);
    RemoveSpacesNoSpaces(blanks4);
    RemoveSpacesNoSpaces(blanks6);
    FirstRevealBlanksGap("test phrase", 't', 4);
  }

  /** The guesses of a whole game on "test": a correct guess, a wrong one,
      a repeated one, then the remaining letters until the game is won. */
  method CompleteGame() {
    var game := new HangmanGame("test");
    assert game.secretWord == "test";
    var r := game.GuessLetter('t');
    assert r == Correct && game.lives == 6;
    assert game.guessedLetters == {'t'} && AllLetters(game.secretWord);
    DisplayAfterT();
    assert game.displayWord == "t _ _ t";
    r := game.GuessLetter('x');
    assert r == Incorrect && game.lives == 5;
    r := game.GuessLetter('T');
    assert r == AlreadyGuessed && game.lives == 5;
    r := game.GuessLetter('e');
    r := game.GuessLetter('s');
    assert game.IsWon() && game.IsGameOver();
  }

  /** Two wrong guesses with two lives lose the game. */
  method LostGame() {
    var game := new HangmanGame("test", 2);
    var r := game.GuessLetter('x');
    r := game.GuessLetter('y');
    assert game.IsLost() && game.IsGameOver();
  }

  /** Twenty seconds into a fifteen-second countdown one life is lost and the
      countdown restarts, so an immediate second check finds no timeout. */
  method TimerExpiry() {
    var game := new HangmanGame("test");
    game.StartTimer(0.0, 15.0);
    assert game.RemainingTime(10.0) == 5.0;
    var up := game.IsTimeUp(10.0);
    assert !up && game.lives == 6;
    up := game.IsTimeUp(20.0);
    assert up && game.lives == 5;
    up := game.IsTimeUp(20.0);
    assert !up && game.lives == 5;
    assert game.RemainingTime(40.0) == 0.0;
  }
}
