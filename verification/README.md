# Hangman server: a Dafny model of its session core

This project models the server of a multiplayer hangman game played over
TCP (`server.c`). An acceptor queues each accepted connection. A pool of
workers takes connections from the queue and runs one session each:

- The client logs in with a single `username&password` message.
- It then sends commands. `hm-start` plays a game of hangman against a
  word entry drawn at random. `lb-start` streams the shared leaderboard.
  An empty message ends the session.
- A game counts one guess per message. It ends in `hm-win` (after which
  the client asks for the full phrase) or `hm-loss`, and is then recorded
  on the leaderboard as a win or a loss for the logged-in user.

The model has six modules, one file each:

- `util.dfy` (`Util`): `min`/`max`, an `Option` type standing for C's NULL
  results, the decimal text `%d` writes and a reader for it, and the
  search that splits a string at its first delimiter.
- `requests.dfy` (`Requests`): the request queue as a class over a
  singly linked list of `Request` nodes with head and tail pointers and a
  count. A ghost sequence of nodes ties the pointers to the FIFO contents.
- `leaderboard.dfy` (`Leaderboard`): the leaderboard store as a class
  holding a sequence of records. Each update method is proved against a
  pure table transformation, and those transformations are proved to keep
  one record per user and `gamesWon <= gamesPlayed`.
- `hangman.dfy` (`Hangman`): the board and the letter count as functions
  of the letters guessed, a game as a function of the messages received
  (`PlayGame`), and `hangmanLoop` as a method over a `char` array proved
  equal to that function.
- `auth.dfy` (`Auth`): the `strtok` split of the login message and the
  credential scan, with the replies it sends.
- `session.dfy` (`Session`): the command loop `gameLoop`, as a function of
  the commands received (`Dispatch`) and as a method proved equal to it.

I/O is modelled on values:

- What a client sends is a sequence of strings, one per `recv`. A receive
  that fails, meaning the peer closed or errored, is the end of that
  sequence.
- What the server sends is returned as a sequence of strings.
- A Dafny `char` stands for one byte of a C string. Guesses, the board
  and the `strtok` split compare bytes, and a NUL byte ends a string. No
  text encoding is involved.
- `rand()` is a parameter. `rand: nat -> nat` gives the value the k-th
  game of a session draws, and the entry played is
  `entries[rand(k) % |entries|]`.

Details of the code that the model keeps:

- A win is recorded only after the `hm-win` / phrase exchange has
  completed (server.c:517-538), not when `hm-win` is sent.
- A repeated or NUL guess still costs a guess.
- The credential file's first line is never matched. It is a header, and
  the scan starts at index 1.
- A rejected login with a known username draws more `failed` replies than
  one with an unknown username (`Auth.RejectionReplies`). The two cases
  can therefore be told apart.
- A guess reveals every position holding the letter, in the category as
  well as the answer. Guessing `a` on `animal`/`cat` gives `a___a_ _a_`
  (`Hangman.AnimalCatBoards`).

## Model

| member | source | states |
|---|---|---|
| Util.Min | server.c:735-737 | the result is at most both arguments and is one of them |
| Util.Max | server.c:740-742 | the result is at least both arguments and is one of them |
| Util.NatToStringDigits | server.c:477 | the `%d` text of a non-negative count is non-empty and all digits |
| Util.NatToStringRoundTrip | server.c:477 | reading back the `%d` text of a count gives the count |
| Util.FindChar | server.c:688-698 | the index returned is the first occurrence of the delimiter, or the length when there is none |
| Util.SplitFirstJoin | server.c:688-698 | a text joined at a delimiter it does not contain splits back into its two parts |
| Leaderboard.IndexOf | server.c:255-270 | the linear search returns the first record with the name, or -1 when no record has it |
| Leaderboard.WithEntry | server.c:298-323 | a known name leaves the table as it was; an unknown one appends a zeroed record; the name is registered afterwards; consistency is kept |
| Leaderboard.EntryOnce | server.c:298-323 | logging in twice creates one record: a second creation for the same name changes nothing |
| Leaderboard.WithWin | server.c:255-270 | same length and names, other records untouched, the named record gains one win and one game, consistency kept |
| Leaderboard.WithLoss | server.c:276-293 | same length and names, other records untouched, the named record gains one game and no win, consistency kept |
| Leaderboard.Listing | server.c:565-582 | one `user&played&won` line per record in table order, then `lb-end` |
| Leaderboard.LineRoundTrip | server.c:568 | a listing line parses back into the record it came from when the username holds no `&` |
| Leaderboard.NoLostUpdates | server.c:255-293 | under any interleaving of wins and losses, each user's played and won counters grow by exactly the number of games and wins reported for them, and the table stays consistent |
| Leaderboard.Table.constructor | server.c:48 | the table starts empty |
| Leaderboard.Table.AddLeaderboardEntry | server.c:298-323 | returns -1 for a known name and 1 otherwise; the new table is `WithEntry` of the old |
| Leaderboard.Table.AddWinFor | server.c:255-270 | returns 1 for a known name and 0 otherwise; the new table is `WithWin` of the old |
| Leaderboard.Table.AddLossFor | server.c:276-293 | returns 1 for a known name and 0 otherwise; the new table is `WithLoss` of the old |
| Leaderboard.Table.LeaderboardLoop | server.c:565-582 | the messages sent are exactly `Listing` of the table |
| Requests.Request.constructor | server.c:160-165 | a new node carries its number and socket and no successor |
| Requests.Queue.constructor | server.c:50-60 | the queue starts empty with null head and tail |
| Requests.Queue.AddRequest | server.c:158-181 | the contents gain the new pair at the back, the count grows by one, the new node is the tail |
| Requests.Queue.GetRequest | server.c:184-207 | an empty queue yields null and is unchanged; otherwise the head is returned, the contents lose their first pair, the count drops by one; the tail is null exactly when the queue is empty |
| Hangman.StartGuesses | server.c:464 | the guesses are the letter count plus ten, capped at 26: between 10 and 26 |
| Hangman.StartBoard | server.c:465-474 | the opening board is `_` everywhere except one space after the category, and `lettersLeft` starts at the letter count |
| Hangman.HiddenNoneGuessed | server.c:465 | with nothing guessed, every position of a word is masked |
| Hangman.BoardAfterGuess | server.c:498-510 | a novel letter shows itself in exactly the phrase positions holding it; every other cell is unchanged |
| Hangman.HiddenAfterGuess | server.c:498-510 | a novel letter lowers a word's masked count by its occurrences |
| Hangman.LettersLeftAfterGuess | server.c:494-511 | `lettersLeft` after a novel letter drops by exactly the cells it reveals |
| Hangman.HiddenZero | server.c:517 | a word has no masked position exactly when all its letters were guessed |
| Hangman.SolvedBoard | server.c:517-532 | with no letters left the board shows the whole phrase that the winner is sent |
| Hangman.Rounds | server.c:485-556 | the rounds of the guessing loop never return more unread messages than they were given |
| Hangman.PlayGame | server.c:461-562 | a game never returns more unread messages than it was given |
| Hangman.RoundsEnd | server.c:485-556 | the loop always ends in a win, a loss or a drop; a win has every letter revealed within the remaining guesses plus the phrase request; a loss has letters hidden after exactly the remaining guesses; a drop consumed all input; letters only accumulate, at most one per guess |
| Hangman.GameEnds | server.c:461-562 | a whole game ends with a verdict or a drop within its starting guesses, and records at most 26 letters |
| Hangman.AnimalCatBoards | server.c:465-510 | for `cat`/`animal` the opening board is `______ ___` and guessing `a` gives `a___a_ _a_` |
| Hangman.AnimalCatOpening | server.c:461-545 | the `cat`/`animal` game starts with 19 guesses; a client that guesses `a` and leaves receives `19&______ ___` and `18&a___a_ _a_` and nothing is recorded |
| Hangman.BoardBytes | server.c:466-474 | the board buffer holds the opening board plus its terminating NUL |
| Hangman.BoardOverrunsMalloc | server.c:466-474 | as written, the NUL is written at the index equal to the allocation's length, one byte past its end |
| Hangman.NewBoard | server.c:466-474 | the buffer is fresh, of `BoardBytes` size, holds the opening board and a NUL after it |
| Hangman.Reveal | server.c:498-510 | one reveal loop writes the letter into exactly the cells of its word holding it and counts them |
| Hangman.PlayLetter | server.c:492-511 | a guess adds a novel letter to the guessed ones, the buffer then holds the board for them, and `lettersLeft` equals the masked count |
| Hangman.HangmanLoop | server.c:461-562 | the messages sent, the outcome and the unread input equal `PlayGame`; the leaderboard gains one win for a won game, one loss for a lost one, and nothing otherwise |
| Auth.DropLeading | server.c:697 | the result is a suffix of the input, everything dropped is the delimiter, and it does not start with the delimiter |
| Auth.Tokens | server.c:688-698 | the username token is NULL exactly when the message is all `&`; a username token is non-empty and holds no `&`; a password token is non-empty and only follows a username token |
| Auth.TokensJoin | server.c:688-698 | a `username&password` message with a `&`-free username splits back into exactly that pair, even when the password holds `&` |
| Auth.NoPasswordToken | server.c:688-698 | a message that is only a username, or a username and a `&`, gives that username and a NULL password |
| Auth.RepliesVerdict | server.c:701-732 | the last reply is `success` exactly when the pair is listed; every earlier reply is `failed` |
| Auth.RejectionReplies | server.c:701-732 | a rejected login gets one `failed` per entry with that username plus one |
| Auth.SkipOthers | server.c:704-725 | entries with other usernames add no reply |
| Auth.ListedLogin | server.c:688-732 | a listed pair whose username appears once logs in with the single reply `success` and its record exists afterwards |
| Auth.AuthenticateUser | server.c:701-732 | for tokens the scan never compares as NULL, returns 1 exactly when the pair is listed after the header, else -1; the replies are `Replies`; on success the record is created and the username handed back, on failure `_failed_` is handed back and the table is unchanged |
| Auth.RecvAuthDataAndAuthenticate | server.c:688-732 | a failed receive returns -1 with nothing sent or changed; otherwise, unless the scan would compare with a NULL token, the result is the scan's for the two tokens, NULL ones included |
| Auth.UnknownNameWithoutPassword | server.c:697-731 | a username with a NULL password that no entry after the header carries never reaches a NULL comparison and is answered with a single `failed` |
| Auth.NoTokensHeaderOnly | server.c:697-731 | a message with no username token, against a list holding only its header, is answered with a single `failed` |
| Auth.NoNameMatches | server.c:704-705 | with no entry carrying the username, no entry counts as a name match |
| Session.Dispatch | server.c:435-458 | a session ends with status 1 or `ERROR` |
| Session.DispatchTouchesOnlyItsUser | server.c:435-458 | a session keeps the table's length, names and consistency, leaves other users' records untouched, and never lowers its user's counters |
| Session.BrowseThenQuit | server.c:435-458 | `lb-start` then an empty message sends the listing and ends with 1, changing nothing |
| Session.GameLoop | server.c:435-458 | the status, the messages sent and the new table equal `Dispatch` of the old table and the commands |

## Left out

- Sockets: `send` is taken always to succeed, so the `ERROR` paths after a
  failed send are not modelled. A failed `recv` is the end of the input
  sequence. Each message is the C string the receive buffer holds; TCP
  framing, partial reads and bytes left over in the buffer are not
  modelled.
- Threads, the mutexes, the reader/writer discipline around the
  leaderboard and the condition variable of the queue. Each queue and
  leaderboard operation is one atomic step. `Leaderboard.NoLostUpdates`
  states what the locking is for over any order of updates, but the locks
  themselves are not modelled. Neither is the sharing of the global `buf`
  and of `strtok`'s hidden state between workers.
- The worker loop `handleRequestLoop`, `handleRequest` with its
  `connected` greeting, `listenForConnection`, `createThreads` and
  `startServer`. They are socket and thread plumbing around the modelled
  operations.
- `loadEntries` and `loadAuthData` (file reading), `srand`/`rand` (a
  parameter instead), `handleInterrupt` and `freeResources` (signals and
  teardown), and `main`. `client.c` is not part of this model.
- C integer widths: counters and lengths are unbounded, so a leaderboard
  counter passing `INT_MAX` is not modelled.
- Fixed-size buffers: the 512-byte message buffers, `char username[64]`,
  and `guessedLetters[26]`. With 26 guesses at most, the 26th novel letter
  fills that array and its terminator lands one byte past it.
  `Hangman.GameEnds` bounds the letters played by 26, but the byte layout
  is not modelled.
- Auth.RecvAuthDataAndAuthenticate: the order of evaluation of the two
  `strtok` calls in one argument list is unspecified in C. The model
  assumes the username call runs first, as the source needs. The source
  passes a NULL token to `strcmp` in two cases. One is a NULL username
  when the list has an entry after its header. The other is a NULL
  password when an entry after the header carries the username. Both are
  undefined behaviour (`Auth.ReadsNull`). There the model ends the
  exchange with -1 and sends nothing. With any other tokens, NULL ones
  included, the model runs the scan as the source does.
- Auth.AuthenticateUser: it requires `!ReadsNull`. That is, the scan
  never compares with a NULL token, since the source's behaviour is
  undefined in that case (see the line above).
- Hangman.HangmanLoop: the pick of the entry (`rand() % entryCount`)
  happens in `Session.GameLoop`, which passes the entry in.
- Hangman.Rounds and Hangman.PlayGame: their own contracts only bound the
  unread input. What a game does is stated by `Hangman.RoundsEnd`,
  `Hangman.GameEnds` and `Hangman.HangmanLoop`.
- Session.Dispatch: its own contract only gives the two statuses. The
  leaderboard side is stated by `Session.DispatchTouchesOnlyItsUser`.
- Session.Dispatch: the leaderboard seen by a session is changed only by
  that session. Concurrent sessions are covered only through
  `Leaderboard.NoLostUpdates`.

## Findings

| source | as written | input that shows it | evidently intended | confidence | as-written member | corrected member |
|---|---|---|---|---|---|---|
| server.c:466-474 | `words` is allocated with `strlen(object) + strlen(objectType) + 1` bytes, but the setup writes the category, a space, the answer and a NUL: one byte more | every entry; for `cat`/`animal` the NUL goes to index 10 of a 10-byte block | allocate `strlen(objectType) + 1 + strlen(object) + 1` bytes | high (not executed) | Hangman.BoardOverrunsMalloc | Hangman.NewBoard |
