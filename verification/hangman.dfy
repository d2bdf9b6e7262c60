/** The hangman game of server.c (`hangmanLoop`). A game picks one word
    list entry, shows its category and answer as a masked board, and then
    takes one guessed character per message until every letter is
    revealed (a win), the guesses run out (a loss) or the connection
    drops. The specification part states the board as a pure function of
    the letters guessed so far; `HangmanLoop` is the in-place loop of the
    source, proved to send exactly what the specification says. */
module Hangman {
  import opened Util
  import opened Leaderboard

  /** One line of the word list: `answer` is the source's `object` (the
      first comma field) and `category` its `objectType` (the second). */
  datatype Entry = Entry(answer: string, category: string)

  /** The guesses a game starts with: the letter count plus ten, capped at 26. */
  function StartGuesses(e: Entry): (g: int)
    ensures 10 <= g <= 26
    ensures g <= |e.answer| + |e.category| + 10
    ensures g == 26 || g == |e.answer| + |e.category| + 10
  {
    Min(|e.answer| + |e.category| + 10, 26)
  }

  /** The full phrase the board hides, and what a winner is sent: category, space, answer. */
  function Phrase(e: Entry): string {
    e.category + " " + e.answer
  }

  /** One word as the board shows it: guessed letters appear, the rest are `_`. */
  function Mask(word: string, guessed: seq<char>): string {
    seq(|word|, k requires 0 <= k < |word| => if word[k] in guessed then word[k] else '_')
  }

  /** The board after the letters in `guessed` have been played. */
  function Board(e: Entry, guessed: seq<char>): string {
    Mask(e.category, guessed) + " " + Mask(e.answer, guessed)
  }

  /** How many positions of `word` hold `c`. */
  function Occurrences(word: string, c: char): nat
    decreases |word|
  {
    if word == [] then 0
    else Occurrences(word[..|word| - 1], c) + (if word[|word| - 1] == c then 1 else 0)
  }

  /** How many positions of `word` are still masked. */
  function Hidden(word: string, guessed: seq<char>): nat
    decreases |word|
  {
    if word == [] then 0
    else Hidden(word[..|word| - 1], guessed) + (if word[|word| - 1] in guessed then 0 else 1)
  }

  /** The value `lettersLeft` keeps: masked positions in category and answer together. */
  function LettersLeft(e: Entry, guessed: seq<char>): nat {
    Hidden(e.category, guessed) + Hidden(e.answer, guessed)
  }

  /** A guess changes nothing when its letter was played before. The NUL
      character always counts as played: `strchr` finds the terminator of
      `guessedLetters`. */
  predicate Repeated(c: char, guessed: seq<char>) {
    c == '\0' || c in guessed
  }

  /** The guessed letters after guessing `c`. */
  function AfterGuess(c: char, guessed: seq<char>): seq<char> {
    if Repeated(c, guessed) then guessed else guessed + [c]
  }

  /** The character a guess message stands for: its first byte (NUL for an empty message). */
  function GuessOf(msg: string): char {
    if msg == [] then '\0' else msg[0]
  }

  /** The `guesses&board` message. */
  function StateMessage(guesses: nat, board: string): string {
    NatToString(guesses) + "&" + board
  }

  // ---------------------------------------------------------------------
  // Properties of the board view

  /** The opening board: as long as the phrase, `_` everywhere except a single
      space between category and answer. */
  lemma StartBoard(e: Entry)
    ensures |Board(e, [])| == |e.category| + 1 + |e.answer|
    ensures Board(e, [])[|e.category|] == ' '
    ensures forall k :: 0 <= k < |Board(e, [])| && k != |e.category| ==> Board(e, [])[k] == '_'
    ensures LettersLeft(e, []) == |e.category| + |e.answer|
  {
    HiddenNoneGuessed(e.category);
    HiddenNoneGuessed(e.answer);
  }

  lemma {:induction false} HiddenNoneGuessed(word: string)
    ensures Hidden(word, []) == |word|
    decreases |word|
  {
    if word != [] {
      HiddenNoneGuessed(word[..|word| - 1]);
    }
  }

  /** A novel letter unmasks exactly the positions that hold it: every masked
      position showing `c` in the phrase now shows `c`, every other cell keeps
      its character. */
  lemma BoardAfterGuess(e: Entry, guessed: seq<char>, c: char)
    ensures |Board(e, guessed + [c])| == |Board(e, guessed)| == |Phrase(e)|
    ensures forall k :: 0 <= k < |Phrase(e)| ==>
      Board(e, guessed + [c])[k] == if Phrase(e)[k] == c then c else Board(e, guessed)[k]
  {
  }

  /** A novel letter lowers the masked count of a word by its number of occurrences. */
  lemma {:induction false} HiddenAfterGuess(word: string, guessed: seq<char>, c: char)
    requires c !in guessed
    ensures Hidden(word, guessed + [c]) == Hidden(word, guessed) - Occurrences(word, c)
    ensures Occurrences(word, c) <= Hidden(word, guessed)
    decreases |word|
  {
    if word != [] {
      HiddenAfterGuess(word[..|word| - 1], guessed, c);
    }
  }

  /** `lettersLeft` after a novel letter: down by exactly the number of cells it reveals. */
  lemma LettersLeftAfterGuess(e: Entry, guessed: seq<char>, c: char)
    requires c !in guessed
    ensures LettersLeft(e, guessed + [c])
      == LettersLeft(e, guessed) - (Occurrences(e.category, c) + Occurrences(e.answer, c))
  {
    HiddenAfterGuess(e.category, guessed, c);
    HiddenAfterGuess(e.answer, guessed, c);
  }

  /** No masked position is left exactly when every letter of the word was guessed. */
  lemma {:induction false} HiddenZero(word: string, guessed: seq<char>)
    ensures Hidden(word, guessed) == 0 <==> forall k :: 0 <= k < |word| ==> word[k] in guessed
    decreases |word|
  {
    if word != [] {
      var init := word[..|word| - 1];
      HiddenZero(init, guessed);
      assert forall k :: 0 <= k < |init| ==> init[k] == word[k];
    }
  }

  /** A board with no letters left shows the whole phrase. */
  lemma SolvedBoard(e: Entry, guessed: seq<char>)
    requires LettersLeft(e, guessed) == 0
    ensures Board(e, guessed) == Phrase(e)
  {
    HiddenZero(e.category, guessed);
    HiddenZero(e.answer, guessed);
  }

  // ---------------------------------------------------------------------
  // The game as a function of the messages received

  datatype Outcome =
    | Won        // `hm-win`, the phrase exchange completed, a win recorded
    | Lost       // `hm-loss` sent, a loss recorded
    | Dropped    // a receive failed; nothing recorded, the session ends
    | Exhausted  // the loop guard failed with no verdict; nothing recorded

  /** What a game did: how it ended, the messages it sent, the letters played
      and the messages left unread for the command loop. */
  datatype GameRun = GameRun(outcome: Outcome, sent: seq<string>, guessed: seq<char>, rest: seq<string>)

  /** The rounds of the guessing loop from `guesses` left and letters
      `guessed`: each message is one guess, which costs one guess whether
      novel, repeated or absent; a solved board wins (checked first), no
      guesses left loses, otherwise the new state is sent. */
  function Rounds(e: Entry, guesses: int, guessed: seq<char>, inputs: seq<string>): (run: GameRun)
    ensures |run.rest| <= |inputs|
    decreases guesses
  {
    if guesses <= 0 then GameRun(Exhausted, [], guessed, inputs)
    else if inputs == [] then GameRun(Dropped, [], guessed, [])
    else
      var played := AfterGuess(GuessOf(inputs[0]), guessed);
      var left := guesses - 1;
      if LettersLeft(e, played) == 0 then
        if |inputs| == 1 then GameRun(Dropped, ["hm-win"], played, [])
        else GameRun(Won, ["hm-win", Phrase(e)], played, inputs[2..])
      else if left > 0 then
        After([StateMessage(left, Board(e, played))], Rounds(e, left, played, inputs[1..]))
      else
        GameRun(Lost, ["hm-loss"], played, inputs[1..])
  }

  /** A run with messages already sent put in front of its own. */
  function After(sent: seq<string>, run: GameRun): GameRun {
    run.(sent := sent + run.sent)
  }

  lemma AfterAfter(a: seq<string>, b: seq<string>, run: GameRun)
    ensures After(a, After(b, run)) == After(a + b, run)
  {
  }

  /** A whole game: the opening state message, then the rounds. */
  function PlayGame(e: Entry, inputs: seq<string>): (run: GameRun)
    ensures |run.rest| <= |inputs|
  {
    After([StateMessage(StartGuesses(e), Board(e, []))], Rounds(e, StartGuesses(e), [], inputs))
  }

  /** What a finished game reports to the leaderboard. */
  function Recorded(rs: seq<Record>, username: string, outcome: Outcome): seq<Record> {
    match outcome
    case Won => WithWin(rs, username)
    case Lost => WithLoss(rs, username)
    case _ => rs
  }

  /** The rounds always end with a verdict or a dropped connection: a win
      means every letter was revealed and took at most the remaining guesses
      plus the phrase request; a loss means letters were still hidden after
      exactly the remaining guesses; a drop consumed all input. Letters are
      only ever added, at most one per guess. */
  lemma {:induction false} RoundsEnd(e: Entry, guesses: int, guessed: seq<char>, inputs: seq<string>)
    requires guesses > 0
    ensures var run := Rounds(e, guesses, guessed, inputs);
      && run.outcome != Exhausted
      && (run.outcome == Won ==> LettersLeft(e, run.guessed) == 0 && |inputs| - |run.rest| <= guesses + 1)
      && (run.outcome == Lost ==> LettersLeft(e, run.guessed) > 0 && |inputs| - |run.rest| == guesses)
      && (run.outcome == Dropped ==> run.rest == [])
      && |guessed| <= |run.guessed| <= |guessed| + guesses
      && run.guessed[..|guessed|] == guessed
    decreases guesses
  {
    if inputs != [] {
      var played := AfterGuess(GuessOf(inputs[0]), guessed);
      if LettersLeft(e, played) != 0 && guesses - 1 > 0 {
        RoundsEnd(e, guesses - 1, played, inputs[1..]);
        var run := Rounds(e, guesses - 1, played, inputs[1..]);
        assert run.guessed[..|guessed|] == run.guessed[..|played|][..|guessed|];
      }
    }
  }

  /** A game never leaves the loop without a verdict, ends within its
      initial number of guesses, and records at most 26 letters. */
  lemma GameEnds(e: Entry, inputs: seq<string>)
    ensures var run := PlayGame(e, inputs);
      && run.outcome != Exhausted
      && (run.outcome == Won ==> LettersLeft(e, run.guessed) == 0 && |inputs| - |run.rest| <= StartGuesses(e) + 1)
      && (run.outcome == Lost ==> LettersLeft(e, run.guessed) > 0 && |inputs| - |run.rest| == StartGuesses(e))
      && (run.outcome == Dropped ==> run.rest == [])
      && |run.guessed| <= StartGuesses(e) <= 26
  {
    RoundsEnd(e, StartGuesses(e), [], inputs);
  }

  /** The boards of a game on the entry with answer `cat` and category
      `animal`, before and after guessing `a`. */
  lemma AnimalCatBoards()
    ensures Board(Entry("cat", "animal"), []) == "______ ___"
    ensures Board(Entry("cat", "animal"), ['a']) == "a___a_ _a_"
    ensures LettersLeft(Entry("cat", "animal"), ['a']) != 0
  {
  }

  /** A game on the entry with answer `cat` and category `animal`: 19 guesses and a blank
      board at the start; guessing `a` unmasks both words' `a`s and leaves
      18 guesses; a client that then disconnects ends the game unrecorded. */
  lemma AnimalCatOpening()
    ensures StartGuesses(Entry("cat", "animal")) == 19
    ensures PlayGame(Entry("cat", "animal"), ["a"])
      == GameRun(Dropped, ["19&______ ___", "18&a___a_ _a_"], ['a'], [])
  {
    var e := Entry("cat", "animal");
    AnimalCatBoards();
    assert NatToString(19) == "19" && NatToString(18) == "18";
    var first, second := StateMessage(19, Board(e, [])), StateMessage(18, Board(e, ['a']));
    assert first == "19&______ ___";
    assert second == "18&a___a_ _a_";
    assert AfterGuess(GuessOf("a"), []) == ['a'];
    assert Rounds(e, 18, ['a'], []) == GameRun(Dropped, [], ['a'], []);
    assert Rounds(e, 19, [], ["a"]) == GameRun(Dropped, [second], ['a'], []);
  }

  // ---------------------------------------------------------------------
  // The in-place loop

  /** The bytes the board buffer needs: the visible board plus its NUL.
      This is the size the model allocates. */
  function BoardBytes(e: Entry): (bytes: nat)
    ensures bytes == |Board(e, [])| + 1
  {
    |e.category| + 1 + |e.answer| + 1
  }

  /** The size `hangmanLoop` passes to `malloc` for the board as written:
      one byte per letter of both words plus one. */
  function MallocedBytes(e: Entry): nat {
    |e.answer| + |e.category| + 1
  }

  /** As written, the board setup writes its terminating NUL at index
      |category| + 1 + |answer|, which is the length of the allocation:
      one byte past its end, for every entry (for `cat`/`animal`, index 10
      of a 10-byte block). The corrected size is one byte larger. */
  lemma BoardOverrunsMalloc(e: Entry)
    ensures |Phrase(e)| == MallocedBytes(e)
    ensures !(|Phrase(e)| < MallocedBytes(e))
    ensures BoardBytes(e) == MallocedBytes(e) + 1
    ensures MallocedBytes(Entry("cat", "animal")) == 10 == |Phrase(Entry("cat", "animal"))|
  {
  }

  /** The board buffer set up as in `hangmanLoop`: `_` for each category
      letter, a space, `_` for each answer letter, and the terminating NUL,
      in an allocation large enough to hold it. */
  method NewBoard(e: Entry) returns (words: array<char>)
    ensures fresh(words)
    ensures words.Length == BoardBytes(e)
    ensures words[..|Phrase(e)|] == Board(e, [])
    ensures words[|Phrase(e)|] == '\0'
  {
    var t, o := e.category, e.answer;
    words := new char[|t| + |o| + 2];
    for i := 0 to |t|
      invariant forall k :: 0 <= k < i ==> words[k] == '_'
    {
      words[i] := '_';
    }
    words[|t|] := ' ';
    for i := 0 to |o|
      invariant forall k :: 0 <= k < |t| ==> words[k] == '_'
      invariant words[|t|] == ' '
      invariant forall k :: |t| + 1 <= k < |t| + 1 + i ==> words[k] == '_'
    {
      words[|t| + 1 + i] := '_';
    }
    words[|t| + 1 + |o|] := '\0';
    assert words[..|Phrase(e)|] == Board(e, []);
  }

  /** One reveal loop of `hangmanLoop`: writes `c` into every cell of the
      board segment at `offset` whose letter in `word` is `c`, and counts
      the cells written (one `lettersLeft--` each). */
  method Reveal(words: array<char>, offset: nat, word: string, c: char) returns (hits: nat)
    requires offset + |word| <= words.Length
    modifies words
    ensures hits == Occurrences(word, c)
    ensures forall k :: 0 <= k < words.Length ==>
      words[k] == if offset <= k < offset + |word| && word[k - offset] == c then c else old(words[k])
  {
    hits := 0;
    for i := 0 to |word|
      invariant hits == Occurrences(word[..i], c)
      invariant forall k :: 0 <= k < words.Length ==>
        words[k] == if offset <= k < offset + i && word[k - offset] == c then c else old(words[k])
    {
      assert word[..i + 1][..i] == word[..i];
      if word[i] == c {
        words[offset + i] := c;
        hits := hits + 1;
      }
    }
    assert word[..|word|] == word;
  }

  /** One guess, server.c's lines after a character is received: a novel
      letter is appended to the guessed letters and written into the board
      buffer wherever category or answer has it, lowering `lettersLeft` by
      one per cell written; a repeated letter changes nothing. */
  method PlayLetter(words: array<char>, e: Entry, guessedLetters: seq<char>, lettersLeft: int, c: char)
    returns (guessed: seq<char>, left: int)
    requires words.Length == BoardBytes(e)
    requires words[..|Phrase(e)|] == Board(e, guessedLetters)
    requires lettersLeft == LettersLeft(e, guessedLetters)
    modifies words
    ensures guessed == AfterGuess(c, guessedLetters)
    ensures words[..|Phrase(e)|] == Board(e, guessed)
    ensures words[|Phrase(e)|] == old(words[|Phrase(e)|])
    ensures left == LettersLeft(e, guessed)
  {
    guessed, left := guessedLetters, lettersLeft;
    if !(c == '\0' || c in guessedLetters) {
      guessed := guessedLetters + [c];
      var n := |Phrase(e)|;
      var hits := Reveal(words, 0, e.category, c);
      var moreHits := Reveal(words, |e.category| + 1, e.answer, c);
      left := lettersLeft - hits - moreHits;
      LettersLeftAfterGuess(e, guessedLetters, c);
      BoardAfterGuess(e, guessedLetters, c);
      forall k | 0 <= k < n
        ensures words[k] == Board(e, guessed)[k]
      {
        assert old(words[k]) == Board(e, guessedLetters)[k];
        if k > |e.category| {
          assert Phrase(e)[k] == e.answer[k - |e.category| - 1];
        }
      }
      assert words[..n] == Board(e, guessed);
    }
  }

  /** `hangmanLoop` for the entry already chosen: sends what `PlayGame`
      says, and records exactly one win for a won game, one loss for a lost
      game and nothing otherwise. */
  method HangmanLoop(lb: Table, username: string, e: Entry, inputs: seq<string>) returns (run: GameRun)
    requires lb.Valid()
    modifies lb
    ensures lb.Valid()
    ensures run == PlayGame(e, inputs)
    ensures lb.records == Recorded(old(lb.records), username, run.outcome)
  {
    var n := |Phrase(e)|;
    var guesses := Min(|e.answer| + |e.category| + 10, 26);
    var lettersLeft := |e.answer| + |e.category|;
    var words := NewBoard(e);
    var guessedLetters: seq<char> := [];
    StartBoard(e);

    assert guesses == StartGuesses(e) && words[..n] == Board(e, []);
    var sent := [StateMessage(guesses, words[..n])];
    var pending := inputs;
    assert sent == [StateMessage(StartGuesses(e), Board(e, []))];
    while guesses > 0
      invariant words.Length == BoardBytes(e) && words[n] == '\0'
      invariant words[..n] == Board(e, guessedLetters)
      invariant lettersLeft == LettersLeft(e, guessedLetters)
      invariant lb.Valid() && lb.records == old(lb.records)
      invariant After(sent, Rounds(e, guesses, guessedLetters, pending)) == PlayGame(e, inputs)
      decreases guesses
    {
      if pending == [] {
        run := GameRun(Dropped, sent, guessedLetters, []);
        return;
      }
      ghost var round := Rounds(e, guesses, guessedLetters, pending);
      ghost var input, sent0, played0 := pending, sent, guessedLetters;
      var c := GuessOf(pending[0]);
      pending := pending[1..];
      guessedLetters, lettersLeft := PlayLetter(words, e, guessedLetters, lettersLeft, c);
      guesses := guesses - 1;

      if lettersLeft <= 0 {
        sent := sent + ["hm-win"];
        if pending == [] {
          assert round == GameRun(Dropped, ["hm-win"], guessedLetters, []);
          run := GameRun(Dropped, sent, guessedLetters, []);
          return;
        }
        assert round == GameRun(Won, ["hm-win", Phrase(e)], guessedLetters, input[2..]);
        pending := pending[1..];
        sent := sent + [e.category + " " + e.answer];
        assert sent == sent0 + ["hm-win", Phrase(e)];
        var _ := lb.AddWinFor(username);
        run := GameRun(Won, sent, guessedLetters, pending);
        return;
      } else if guesses > 0 {
        var message := StateMessage(guesses, words[..n]);
        assert round == After([message], Rounds(e, guesses, guessedLetters, pending));
        sent := sent + [message];
        AfterAfter(sent0, [message], Rounds(e, guesses, guessedLetters, pending));
      } else {
        assert round == GameRun(Lost, ["hm-loss"], guessedLetters, pending);
        sent := sent + ["hm-loss"];
        var _ := lb.AddLossFor(username);
        run := GameRun(Lost, sent, guessedLetters, pending);
        return;
      }
    }
    run := GameRun(Exhausted, sent, guessedLetters, pending);
  }
}
