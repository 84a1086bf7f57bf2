# Hangman game state, in Dafny

This project models the game-state object of a command-line hangman game
(`HangmanGame` in `src/hangman.py`). A game holds a lower-cased secret word
or phrase, the set of letters guessed so far, a life counter, the rendered
display (one symbol per secret character, joined by single spaces) and a
per-guess countdown. A guess reports one of three outcomes: already guessed,
correct or incorrect. A timeout check can cost a life and restart the
countdown.

Layout:

- `text.dfy`, module `Text`: the string builtins the game uses, over ASCII.
  These are `isalpha`, `lower`, `' '.join` (`Join`) and `replace(' ', '')`
  (`RemoveSpaces`), with their laws. The main law is that stripping the
  spaces from a join of non-space symbols gives the symbols back.
- `hangman.dfy`, module `Hangman`: the class `HangmanGame` with its fields,
  its methods and the query predicates `IsWon`, `IsLost` and `IsGameOver`.
  It also holds the specification functions the methods are proved against
  and the lemmas about them. `InitialSymbols` is the display's starting
  symbols. `Mask` is the intended view of a secret. `Revealed` is what the
  reveal loop of a correct guess writes.
- `scenarios.dfy`, module `HangmanScenarios`: the concrete displays of "test"
  and "test phrase" and the literal behaviour on a phrase. It also has three
  client methods that replay whole games through the class: a won game, a
  lost game and a timer expiry.

The clock is injected. `StartTimer`, `IsTimeUp` and `RemainingTime` take the
current time `now` as a `real` number of seconds. The start of the countdown
is an `Option<real>`.

The object invariant `Valid()` says four things. The display holds one
symbol per secret character, joined by single spaces, so its length is
2n-1 for a secret of n characters. The secret has no upper-case letter.
Every guessed letter is lower case. For a secret made of letters only, the
display is exactly `Join(Mask(secret, guessed))`: each position shows its
letter once guessed and a blank before. The constructor establishes
`Valid()` and every method preserves it. From it, the contract of `IsWon`
shows that such a game is won exactly when every letter of the secret has
been guessed.

Phrases are modelled as the code is written. The display keeps one symbol per character for
phrases too. But the reveal loop indexes the display after its spaces have
been removed, and a phrase's space symbol is one of those spaces. So from the
space onwards it reads the symbol of a later position. `FirstRevealBlanksGap` and `PhraseSpaceBecomesBlank` show the
consequence: after the first correct guess on "test phrase", the space's
position shows a blank. One might expect spaces to stay visible and never
block a win. The code does not keep them, and the model follows the code. Reveal and win properties are therefore stated for secrets
made of letters only.

## Model

| member | source | states |
|---|---|---|
| Text.IsAlpha | src/hangman.py:37 | an ASCII letter; a letter is never the blank symbol or the separator space |
| Text.Lower | src/hangman.py:65 | an upper-case letter becomes the same letter in lower case (same offset from 'a' as from 'A'); no upper-case letter is left; letters stay letters; every other character is unchanged |
| Text.LowerStr | src/hangman.py:27 | each character of the secret is lower-cased in place: same length, no upper-case letter, letters exactly where the input had them |
| Text.Join | src/hangman.py:41 | joining n symbols with single spaces gives a string of length 2n-1 (empty for none) |
| Text.JoinAt | src/hangman.py:41 | in the joined string symbol i sits at position 2i and a space sits between neighbouring symbols |
| Text.JoinLayout | src/hangman.py:85 | conversely, any string laid out that way is the join of those symbols |
| Text.JoinContains | src/hangman.py:92 | a character other than a space occurs in a join exactly when it is one of the joined symbols |
| Text.RemoveSpaces | src/hangman.py:75 | stripping spaces never lengthens a string and leaves no space |
| Text.RemoveSpacesNoSpaces | src/hangman.py:75 | stripping spaces from a string without any leaves it unchanged |
| Text.RemoveSpacesFrom | src/hangman.py:75 | each character left after stripping comes from the input |
| Text.RemoveSpacesAppend | src/hangman.py:75 | stripping spaces distributes over concatenation |
| Text.StripJoinSeparators | src/hangman.py:75 | stripping the spaces of a join equals stripping the spaces of the joined symbols |
| Text.StripJoin | src/hangman.py:75 | for symbols without spaces, stripping the spaces of their join gives back exactly those symbols |
| Hangman.InitialIsMask | src/hangman.py:34-41 | for a word, the initial symbols are the mask over no guessed letters |
| Hangman.RevealExtendsMask | src/hangman.py:77-85 | for a word whose display is its mask, the reveal loop of a new letter yields the mask over the guesses plus that letter |
| Hangman.RevealPositions | src/hangman.py:77-85 | position by position: every occurrence of the guessed letter shows it, revealed positions stay revealed, all others stay blank |
| Hangman.WrongGuessKeepsMask | src/hangman.py:87-89 | a letter absent from the secret leaves the mask unchanged |
| Hangman.NoBlankIffAllGuessed | src/hangman.py:91-92 | a word's joined mask has no blank exactly when every letter of the word has been guessed |
| Hangman.FirstRevealBlanksGap | src/hangman.py:73-85 | as written, a first correct guess turns a non-letter position reached by the stripped display into a blank |
| Hangman.HangmanGame.constructor | src/hangman.py:26-32 | the secret is lower-cased, no letter is guessed, lives are as given (default 6), the display is the join of the initial symbols (length 2n-1), the timer is unset, the limit is 15, and the invariant holds |
| Hangman.HangmanGame.InitializeDisplayWord | src/hangman.py:34-41 | the loop builds the join of one blank per letter and one space per other character: symbol i at position 2i, spaces between, length 2n-1 |
| Hangman.HangmanGame.StartTimer | src/hangman.py:43-45 | the countdown starts at `now` with the given limit (default 15) and nothing else changes |
| Hangman.HangmanGame.IsTimeUp | src/hangman.py:47-56 | reports a timeout exactly when the timer is set and more than the limit has elapsed; then it takes exactly one life and restarts the timer at `now`; otherwise nothing changes; lives never increase, so a lost game stays lost |
| Hangman.HangmanGame.RemainingTime | src/hangman.py:58-62 | the full limit when the timer is unset, otherwise the larger of 0 and the limit minus the elapsed time |
| Hangman.HangmanGame.GuessLetter | src/hangman.py:64-89 | already guessed exactly when the lower-cased letter was guessed before, and then nothing changes; otherwise the letter is recorded; a correct guess keeps lives and sets the display to the join of the reveal loop's output; an incorrect one takes exactly one life and keeps the display; lives never increase, so a lost game stays lost; the invariant, including one display symbol per secret character, is preserved |
| Hangman.HangmanGame.IsWon | src/hangman.py:91-92 | no blank is left in the display; for a valid game on a word, that holds exactly when every letter of the secret is in the guessed set |
| Hangman.HangmanGame.IsLost | src/hangman.py:94-95 | lost exactly when lives are at most 0 (lives may go below 0); together with the mutating methods, once lost always lost |
| Hangman.HangmanGame.IsGameOver | src/hangman.py:97-98 | won or lost; for a valid game on a word, exactly when every letter is guessed or lives are at most 0 |
| HangmanScenarios.InitialDisplays | tests/test_hangman.py:17-27 | "test" starts as "_ _ _ _" and "test phrase" as "_ _ _ _   _ _ _ _ _ _" |
| HangmanScenarios.DisplayAfterT | tests/test_hangman.py:29-34 | after guessing 't', "test" shows "t _ _ t": both occurrences are revealed at once |
| HangmanScenarios.PhraseSpaceBecomesBlank | src/hangman.py:73-85 | the stripped initial display of "test phrase" is one symbol shorter than the phrase, and guessing 't' puts a blank at the space's position |

## Left out

- `load_words` and the module-level word lists (src/hangman.py:4-15): file reading and a console warning.
- `select_word` and `select_phrase` (src/hangman.py:17-23): random choice from a list.
- `main` (src/hangman.py:100-153): the interactive input and print loop and its interrupt handling. Its input check (src/hangman.py:131) becomes the parameter type of `GuessLetter`: the guess is one `char`. A non-letter character is still accepted, as it is by the method itself.
- Multi-character guess strings: for these, `in` would become a substring test. The one-character type rules them out.
- The wall clock: time is a `now` parameter. `IsTimeUp` uses the same `now` for the elapsed time and for the restart, where the code reads the clock twice.
- Floating point: times are exact reals.
- Unicode: `lower` and `isalpha` are modelled over ASCII letters only. Other characters are not letters and are left unchanged by lower-casing.
- An `Invalid` guess outcome and a refusal to change a finished game: one might expect both, but the code has neither, so neither is modelled.
