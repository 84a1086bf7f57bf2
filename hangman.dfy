/** The hangman game state: the secret, the letters guessed so far, the
    lives left, the rendered display and a per-guess countdown. The clock is
    not read here: every operation that needs the time takes it as `now`,
    in seconds. */
module Hangman {
  import opened Text

  datatype Option<T> = None | Some(value: T)

  /** What `guess_letter` reports: `None`, `True` or `False` in the source. */
  datatype GuessOutcome = AlreadyGuessed | Correct | Incorrect

  const DefaultLives: int := 6
  const DefaultTimeLimit: real := 15.0

  /** The initial symbol of one secret character: a blank for a letter,
      a space for anything else. */
  function Symbol(c: char): char {
    if IsAlpha(c) then '_' else ' '
  }

  /** The symbols the display starts with, one per secret character. */
  function InitialSymbols(secret: string): seq<char> {
    seq(|secret|, i requires 0 <= i < |secret| => Symbol(secret[i]))
  }

  predicate AllLetters(s: string) {
    forall i :: 0 <= i < |s| ==> IsAlpha(s[i])
  }

  /** The intended view of a secret: each position shows its character once
      that character has been guessed, and a blank before. */
  function Mask(secret: string, guessed: set<char>): seq<char> {
    seq(|secret|, i requires 0 <= i < |secret| => if secret[i] in guessed then secret[i] else '_')
  }

  /** The symbol the reveal loop of a correct guess writes at position `i`,
      given the secret and the display with its spaces stripped. */
  function RevealedSymbol(secret: string, shown: seq<char>, letter: char, i: nat): char
    requires i < |secret|
  {
    if secret[i] == letter then letter
    else if i < |shown| && shown[i] != '_' then shown[i]
    else '_'
  }

  function Revealed(secret: string, shown: seq<char>, letter: char): seq<char> {
    seq(|secret|, i requires 0 <= i < |secret| => RevealedSymbol(secret, shown, letter, i))
  }

  /** Before any guess, the display of a word is its mask over no letters. */
  lemma InitialIsMask(secret: string)
    requires AllLetters(secret)
    ensures InitialSymbols(secret) == Mask(secret, {})
  {
  }

  /** The mask of a word is all blanks and letters, never a space. */
  lemma MaskNoSpaces(secret: string, guessed: set<char>)
    requires AllLetters(secret)
    ensures NoSpaces(Mask(secret, guessed))
  {
  }

  /** On a word whose display is its mask, the reveal loop of a fresh guess
      `letter` produces the mask over the guesses plus `letter`. */
  lemma RevealExtendsMask(secret: string, guessed: set<char>, letter: char)
    requires AllLetters(secret)
    ensures Revealed(secret, Mask(secret, guessed), letter) == Mask(secret, guessed + {letter})
  {
  }

  /** The reveal on a word, position by position: every occurrence of the
      letter shows it, every position shown before stays shown, and every
      other position stays blank. */
  lemma RevealPositions(secret: string, guessed: set<char>, letter: char, i: nat)
    requires AllLetters(secret) && i < |secret|
    ensures secret[i] == letter ==> Mask(secret, guessed + {letter})[i] == letter
    ensures Mask(secret, guessed)[i] != '_' ==> Mask(secret, guessed + {letter})[i] == Mask(secret, guessed)[i]
    ensures secret[i] != letter && Mask(secret, guessed)[i] == '_' ==> Mask(secret, guessed + {letter})[i] == '_'
  {
  }

  /** A letter that does not occur in the word changes nothing in its mask. */
  lemma WrongGuessKeepsMask(secret: string, guessed: set<char>, letter: char)
    requires letter !in secret
    ensures Mask(secret, guessed + {letter}) == Mask(secret, guessed)
  {
  }

  /** A word's joined mask has no blank left exactly when each of its
      letters has been guessed. */
  lemma {:induction false} NoBlankIffAllGuessed(secret: string, guessed: set<char>)
    requires AllLetters(secret)
    ensures '_' !in Join(Mask(secret, guessed)) <==> forall i :: 0 <= i < |secret| ==> secret[i] in guessed
  {
    var m := Mask(secret, guessed);
    JoinContains(m, '_');
    if '_' in m {
      var i :| 0 <= i < |m| && m[i] == '_';
      assert IsAlpha(secret[i]);
      assert secret[i] !in guessed;
    } else {
      forall i | 0 <= i < |secret| ensures secret[i] in guessed {
        assert m[i] != '_';
      }
    }
  }

  /** The reveal loop as written, on a fresh display: a non-letter position
      `p` that the stripped display still reaches is read from a blank, so a
      first correct guess turns it into a blank (unless the guess is that
      very character). */
  lemma FirstRevealBlanksGap(secret: string, letter: char, p: nat)
    requires p < |secret| && !IsAlpha(secret[p]) && secret[p] != letter
    requires p < |RemoveSpaces(Join(InitialSymbols(secret)))|
    ensures Revealed(secret, RemoveSpaces(Join(InitialSymbols(secret))), letter)[p] == '_'
  {
    var syms := InitialSymbols(secret);
    StripJoinSeparators(syms);
    RemoveSpacesFrom(syms, p);
  }

  class HangmanGame {
    var secretWord: string
    var guessedLetters: set<char>
    var lives: int
    var displayWord: string
    var startTime: Option<real>
    var timeLimit: real

    /** The secret and the guesses are lower case, the display holds one
        symbol per secret character joined by single spaces, and for a secret
        made of letters only it shows each guessed letter where it occurs and
        a blank everywhere else. */
    ghost predicate Valid()
      reads this
    {
      |displayWord| == (if secretWord == [] then 0 else 2 * |secretWord| - 1) &&
      (forall i :: 0 <= i < |secretWord| ==> !IsUpper(secretWord[i])) &&
      (forall c :: c in guessedLetters ==> !IsUpper(c)) &&
      (AllLetters(secretWord) ==> displayWord == Join(Mask(secretWord, guessedLetters)))
    }

    constructor (secret: string, lives: int := DefaultLives)
      ensures Valid()
      ensures secretWord == LowerStr(secret)
      ensures guessedLetters == {} && this.lives == lives
      ensures displayWord == Join(InitialSymbols(secretWord))
      ensures |displayWord| == if secretWord == [] then 0 else 2 * |secretWord| - 1
      ensures startTime == None && timeLimit == DefaultTimeLimit
    {
      secretWord := LowerStr(secret);
      guessedLetters := {};
      this.lives := lives;
      displayWord := "";
      startTime := None;
      timeLimit := DefaultTimeLimit;
      new;
      displayWord := InitializeDisplayWord();
      if AllLetters(secretWord) {
        InitialIsMask(secretWord);
      }
    }

    /** The initial display: a blank for each letter of the secret and a
        space for each other character, separated by single spaces. */
    method InitializeDisplayWord() returns (d: string)
      ensures d == Join(InitialSymbols(secretWord))
      ensures |d| == if secretWord == [] then 0 else 2 * |secretWord| - 1
      ensures forall i :: 0 <= i < |secretWord| ==> d[2 * i] == (if IsAlpha(secretWord[i]) then '_' else ' ')
      ensures forall i :: 0 <= i && i + 1 < |secretWord| ==> d[2 * i + 1] == ' '
    {
      var display: seq<char> := [];
      for i := 0 to |secretWord|
        invariant |display| == i
        invariant forall k :: 0 <= k < i ==> display[k] == Symbol(secretWord[k])
      {
        if IsAlpha(secretWord[i]) {
          display := display + ['_'];
        } else {
          display := display + [' '];
        }
      }
      assert display == InitialSymbols(secretWord);
      d := Join(display);
      forall i | 0 <= i < |secretWord|
        ensures d[2 * i] == display[i] && (i + 1 < |secretWord| ==> d[2 * i + 1] == ' ')
      {
        JoinAt(display, i);
      }
    }

    /** Starts (or restarts) the countdown at `now`. */
    method StartTimer(now: real, timeLimit: real := DefaultTimeLimit)
      requires Valid()
      modifies this
      ensures Valid()
      ensures startTime == Some(now) && this.timeLimit == timeLimit
      ensures secretWord == old(secretWord) && guessedLetters == old(guessedLetters)
      ensures lives == old(lives) && displayWord == old(displayWord)
    {
      startTime := Some(now);
      this.timeLimit := timeLimit;
    }

    /** A timeout costs one life and restarts the countdown at `now`. */
    method IsTimeUp(now: real) returns (up: bool)
      requires Valid()
      modifies this
      ensures Valid()
      ensures up <==> old(startTime).Some? && now - old(startTime).value > old(timeLimit)
      ensures up ==> lives == old(lives) - 1 && startTime == Some(now)
      ensures !up ==> lives == old(lives) && startTime == old(startTime)
      ensures lives <= old(lives) && (old(IsLost()) ==> IsLost())
      ensures secretWord == old(secretWord) && guessedLetters == old(guessedLetters)
      ensures displayWord == old(displayWord) && timeLimit == old(timeLimit)
    {
      if startTime.None? {
        return false;
      }
      var elapsed := now - startTime.value;
      if elapsed > timeLimit {
        lives := lives - 1;
        startTime := Some(now);
        return true;
      }
      return false;
    }

    /** The seconds left in the current countdown, never below zero once
        the timer runs; the whole limit while it does not. */
    function RemainingTime(now: real): (r: real)
      reads this
      ensures startTime.None? ==> r == timeLimit
      ensures startTime.Some? ==> r >= 0.0 && r >= timeLimit - (now - startTime.value)
      ensures startTime.Some? ==> r == 0.0 || r == timeLimit - (now - startTime.value)
    {
      match startTime
      case None => timeLimit
      case Some(start) =>
        var elapsed := now - start;
        if timeLimit - elapsed > 0.0 then timeLimit - elapsed else 0.0
    }

    /** Applies one guess. A letter guessed before changes nothing. A fresh
        letter is recorded; if it occurs in the secret the display is rebuilt
        by the reveal loop, otherwise one life is lost. */
    method GuessLetter(letter: char) returns (outcome: GuessOutcome)
      requires Valid()
      modifies this
      ensures Valid()
      ensures (outcome == AlreadyGuessed) <==> Lower(letter) in old(guessedLetters)
      ensures outcome == AlreadyGuessed ==>
        guessedLetters == old(guessedLetters) && lives == old(lives) && displayWord == old(displayWord)
      ensures outcome != AlreadyGuessed ==> guessedLetters == old(guessedLetters) + {Lower(letter)}
      ensures outcome == Correct <==> Lower(letter) !in old(guessedLetters) && Lower(letter) in secretWord
      ensures outcome == Correct ==>
        lives == old(lives) &&
        displayWord == Join(Revealed(secretWord, RemoveSpaces(old(displayWord)), Lower(letter)))
      ensures outcome == Incorrect ==> lives == old(lives) - 1 && displayWord == old(displayWord)
      ensures lives <= old(lives) && (old(IsLost()) ==> IsLost())
      ensures secretWord == old(secretWord) && startTime == old(startTime) && timeLimit == old(timeLimit)
    {
      var l := Lower(letter);
      if l in guessedLetters {
        return AlreadyGuessed;
      }
      ghost var before := guessedLetters;
      guessedLetters := guessedLetters + {l};
      if l in secretWord {
        var newDisplay: seq<char> := [];
        var secretChars := secretWord;
        var displayChars := RemoveSpaces(displayWord);
        for i := 0 to |secretChars|
          invariant |newDisplay| == i
          invariant forall k :: 0 <= k < i ==> newDisplay[k] == RevealedSymbol(secretChars, displayChars, l, k)
        {
          if secretChars[i] == l {
            newDisplay := newDisplay + [l];
          } else if i < |displayChars| && displayChars[i] != '_' {
            newDisplay := newDisplay + [displayChars[i]];
          } else {
            newDisplay := newDisplay + ['_'];
          }
        }
        assert newDisplay == Revealed(secretChars, displayChars, l);
        if AllLetters(secretWord) {
          MaskNoSpaces(secretWord, before);
          StripJoin(Mask(secretWord, before));
          RevealExtendsMask(secretWord, before, l);
        }
        displayWord := Join(newDisplay);
        return Correct;
      } else {
        WrongGuessKeepsMask(secretWord, before, l);
        lives := lives - 1;
        return Incorrect;
      }
    }

    /** No blank is left in the display. For a secret made of letters only,
        that is exactly when every letter of the secret has been guessed. */
    function IsWon(): (won: bool)
      reads this
      ensures Valid() && AllLetters(secretWord) ==>
        (won <==> forall i :: 0 <= i < |secretWord| ==> secretWord[i] in guessedLetters)
    {
      if AllLetters(secretWord) then
        NoBlankIffAllGuessed(secretWord, guessedLetters);
        '_' !in displayWord
      else
        '_' !in displayWord
    }

    /** No life is left; lives may go below zero. */
    function IsLost(): (lost: bool)
      reads this
      ensures lost <==> lives <= 0
    {
      lives <= 0
    }

    /** For a secret made of letters only, the game is over exactly when every
        letter has been guessed or no life is left. */
    function IsGameOver(): (over: bool)
      reads this
      ensures over <==> IsWon() || IsLost()
      ensures Valid() && AllLetters(secretWord) ==>
        (over <==> (forall i :: 0 <= i < |secretWord| ==> secretWord[i] in guessedLetters) || lives <= 0)
    {
      IsWon() || IsLost()
    }
  }
}
