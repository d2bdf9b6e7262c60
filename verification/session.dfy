/** The command loop of server.c (`gameLoop`) that an authenticated
    client drives: `lb-start` streams the leaderboard, `hm-start` plays
    one game against a random entry of the word list, an empty message
    ends the session, and anything else is ignored. */
module Session {
  import opened Leaderboard
  import opened Hangman

  /** `ERROR` of server.c. */
  const ERROR := -1

  /** How a session ended: the status `gameLoop` returns, every message
      it sent, and the leaderboard afterwards. */
  datatype SessionEnd = SessionEnd(status: int, sent: seq<string>, records: seq<Record>)

  /** A session end with messages already sent put in front of its own. */
  function Then(sent: seq<string>, end: SessionEnd): SessionEnd {
    end.(sent := sent + end.sent)
  }

  lemma ThenThen(a: seq<string>, b: seq<string>, end: SessionEnd)
    ensures Then(a, Then(b, end)) == Then(a + b, end)
  {
  }

  /** The entry the `k`-th game of the session plays: `rand()` is a
      parameter giving the value each game draws. */
  function Pick(entries: seq<Entry>, rand: nat -> nat, k: nat): Entry
    requires |entries| > 0
  {
    entries[rand(k) % |entries|]
  }

  /** The session as a function of the commands received: a failed receive
      or a dropped game ends it with `ERROR`, an empty command with 1.
      `k` counts the games already played. */
  function Dispatch(rs: seq<Record>, entries: seq<Entry>, rand: nat -> nat, k: nat,
                    username: string, inputs: seq<string>): (end: SessionEnd)
    requires |entries| > 0
    ensures end.status == 1 || end.status == ERROR
    decreases |inputs|
  {
    if inputs == [] then SessionEnd(ERROR, [], rs)
    else if inputs[0] == "lb-start" then
      Then(Listing(rs), Dispatch(rs, entries, rand, k, username, inputs[1..]))
    else if inputs[0] == "hm-start" then
      var run := PlayGame(Pick(entries, rand, k), inputs[1..]);
      var after := Recorded(rs, username, run.outcome);
      if run.outcome == Dropped then SessionEnd(ERROR, run.sent, after)
      else Then(run.sent, Dispatch(after, entries, rand, k + 1, username, run.rest))
    else if inputs[0] == "" then SessionEnd(1, [], rs)
    else Dispatch(rs, entries, rand, k, username, inputs[1..])
  }

  /** A session changes the leaderboard only by counting the games of its
      own user: the table keeps its length, names and consistency, every
      other user's record is untouched, and the user's counters never go
      down. */
  lemma {:induction false} DispatchTouchesOnlyItsUser(rs: seq<Record>, entries: seq<Entry>, rand: nat -> nat, k: nat,
                                                      username: string, inputs: seq<string>)
    requires |entries| > 0 && Consistent(rs)
    ensures var r := Dispatch(rs, entries, rand, k, username, inputs).records;
      && |r| == |rs| && Consistent(r)
      && (forall j :: 0 <= j < |rs| ==> r[j].username == rs[j].username)
      && (forall j :: 0 <= j < |rs| && rs[j].username != username ==> r[j] == rs[j])
      && (forall j :: 0 <= j < |rs| ==>
            r[j].gamesWon >= rs[j].gamesWon && r[j].gamesPlayed >= rs[j].gamesPlayed)
    decreases |inputs|
  {
    if inputs != [] {
      if inputs[0] == "lb-start" || (inputs[0] != "hm-start" && inputs[0] != "") {
        DispatchTouchesOnlyItsUser(rs, entries, rand, k, username, inputs[1..]);
      } else if inputs[0] == "hm-start" {
        var run := PlayGame(Pick(entries, rand, k), inputs[1..]);
        var after := Recorded(rs, username, run.outcome);
        if run.outcome != Dropped {
          DispatchTouchesOnlyItsUser(after, entries, rand, k + 1, username, run.rest);
        }
      }
    }
  }

  /** A client that asks for the leaderboard and then leaves receives the
      listing of the table and ends the session with 1. */
  lemma BrowseThenQuit(rs: seq<Record>, entries: seq<Entry>, rand: nat -> nat, username: string)
    requires |entries| > 0
    ensures Dispatch(rs, entries, rand, 0, username, ["lb-start", ""]) == SessionEnd(1, Listing(rs), rs)
  {
  }

  /** `gameLoop`: receives commands until one ends the session, streaming
      the leaderboard and playing games on the shared table as asked. */
  method GameLoop(lb: Table, entries: seq<Entry>, rand: nat -> nat, username: string, inputs: seq<string>)
    returns (status: int, sent: seq<string>)
    requires |entries| > 0 && lb.Valid()
    modifies lb
    ensures lb.Valid()
    ensures SessionEnd(status, sent, lb.records) == Dispatch(old(lb.records), entries, rand, 0, username, inputs)
  {
    sent := [];
    var pending := inputs;
    var k := 0;
    while pending != []
      invariant lb.Valid()
      invariant Then(sent, Dispatch(lb.records, entries, rand, k, username, pending))
        == Dispatch(old(lb.records), entries, rand, 0, username, inputs)
      decreases |pending|
    {
      ghost var step := Dispatch(lb.records, entries, rand, k, username, pending);
      ghost var sent0 := sent;
      var command := pending[0];
      pending := pending[1..];
      if command == "lb-start" {
        var lines := lb.LeaderboardLoop();
        sent := sent + lines;
        ThenThen(sent0, lines, Dispatch(lb.records, entries, rand, k, username, pending));
      } else if command == "hm-start" {
        var run := HangmanLoop(lb, username, Pick(entries, rand, k), pending);
        sent := sent + run.sent;
        if run.outcome == Dropped {
          return ERROR, sent;
        }
        k := k + 1;
        ThenThen(sent0, run.sent, Dispatch(lb.records, entries, rand, k, username, run.rest));
        pending := run.rest;
      } else if command == "" {
        return 1, sent;
      }
    }
    return ERROR, sent;
  }
}
