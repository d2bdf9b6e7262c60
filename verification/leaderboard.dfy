/** The leaderboard table of server.c: a growable array of
    `{username, gamesWon, gamesPlayed}` records with one record per
    user, created on first login and counted up after every game.
    Each operation runs under the leaderboard write lock in the source,
    so each is modelled as one atomic step. */
module Leaderboard {
  import opened Util

  /** One element of `leaderBoard`. */
  datatype Record = Record(username: string, gamesWon: nat, gamesPlayed: nat)

  /** The index linear search finds: the first record named `name`, or -1. */
  function IndexOf(rs: seq<Record>, name: string): (i: int)
    ensures -1 <= i < |rs|
    ensures 0 <= i ==> rs[i].username == name
    ensures forall j :: 0 <= j < |rs| && (i < 0 || j < i) ==> rs[j].username != name
  {
    if rs == [] then -1
    else if rs[0].username == name then 0
    else
      var k := IndexOf(rs[1..], name);
      if k < 0 then -1 else k + 1
  }

  predicate Registered(rs: seq<Record>, name: string) {
    exists j :: 0 <= j < |rs| && rs[j].username == name
  }

  ghost predicate UniqueNames(rs: seq<Record>) {
    forall i, j :: 0 <= i < j < |rs| ==> rs[i].username != rs[j].username
  }

  /** What the table keeps true: one record per user, and no user has won
      more games than they played. */
  ghost predicate Consistent(rs: seq<Record>) {
    && UniqueNames(rs)
    && forall i :: 0 <= i < |rs| ==> rs[i].gamesWon <= rs[i].gamesPlayed
  }

  /** The table after `addLeaderboardEntry(name)`. */
  function WithEntry(rs: seq<Record>, name: string): (r: seq<Record>)
    ensures Registered(rs, name) ==> r == rs
    ensures !Registered(rs, name) ==> |r| == |rs| + 1 && r[..|rs|] == rs && r[|rs|] == Record(name, 0, 0)
    ensures Registered(r, name)
    ensures Consistent(rs) ==> Consistent(r)
  {
    if IndexOf(rs, name) >= 0 then rs else rs + [Record(name, 0, 0)]
  }

  /** Logging in twice creates one record: a second `addLeaderboardEntry`
      for the same name changes nothing. */
  lemma EntryOnce(rs: seq<Record>, name: string)
    ensures WithEntry(WithEntry(rs, name), name) == WithEntry(rs, name)
    ensures |WithEntry(rs, name)| <= |rs| + 1
  {
  }

  /** The table after `addWinFor(name)`: the record found gains a win and a game. */
  function WithWin(rs: seq<Record>, name: string): (r: seq<Record>)
    ensures |r| == |rs|
    ensures forall j :: 0 <= j < |rs| ==> r[j].username == rs[j].username
    ensures forall j :: 0 <= j < |rs| && rs[j].username != name ==> r[j] == rs[j]
    ensures UniqueNames(rs) ==> forall j :: 0 <= j < |rs| && rs[j].username == name ==>
      r[j].gamesWon == rs[j].gamesWon + 1 && r[j].gamesPlayed == rs[j].gamesPlayed + 1
    ensures Consistent(rs) ==> Consistent(r)
  {
    var i := IndexOf(rs, name);
    if i < 0 then rs else rs[i := Record(name, rs[i].gamesWon + 1, rs[i].gamesPlayed + 1)]
  }

  /** The table after `addLossFor(name)`: the record found gains a game only. */
  function WithLoss(rs: seq<Record>, name: string): (r: seq<Record>)
    ensures |r| == |rs|
    ensures forall j :: 0 <= j < |rs| ==> r[j].username == rs[j].username
    ensures forall j :: 0 <= j < |rs| && rs[j].username != name ==> r[j] == rs[j]
    ensures UniqueNames(rs) ==> forall j :: 0 <= j < |rs| && rs[j].username == name ==>
      r[j].gamesWon == rs[j].gamesWon && r[j].gamesPlayed == rs[j].gamesPlayed + 1
    ensures Consistent(rs) ==> Consistent(r)
  {
    var i := IndexOf(rs, name);
    if i < 0 then rs else rs[i := rs[i].(gamesPlayed := rs[i].gamesPlayed + 1)]
  }

  /** One line of the listing: `user&played&won`. */
  function Line(r: Record): string {
    r.username + "&" + NatToString(r.gamesPlayed) + "&" + NatToString(r.gamesWon)
  }

  /** What `leaderboardLoop` sends: one line per record in table order, then `lb-end`. */
  function Listing(rs: seq<Record>): (out: seq<string>)
    ensures |out| == |rs| + 1
    ensures forall i :: 0 <= i < |rs| ==> out[i] == Line(rs[i])
    ensures out[|rs|] == "lb-end"
  {
    if rs == [] then ["lb-end"] else [Line(rs[0])] + Listing(rs[1..])
  }

  /** How a reader of the listing splits a line back into a record. */
  function ParseLine(s: string): Option<Record> {
    match SplitFirst(s, '&')
    case None => None
    case Some((name, counts)) =>
      match SplitFirst(counts, '&')
      case None => None
      case Some((played, won)) =>
        match (ParseNat(played), ParseNat(won))
        case (Some(p), Some(w)) => Some(Record(name, w, p))
        case _ => None
  }

  /** A line of the listing reads back as the record it came from, as long
      as the username itself holds no `&`. */
  lemma LineRoundTrip(r: Record)
    requires '&' !in r.username
    ensures ParseLine(Line(r)) == Some(r)
  {
    var played, won := NatToString(r.gamesPlayed), NatToString(r.gamesWon);
    NatToStringDigits(r.gamesPlayed);
    NatToStringRoundTrip(r.gamesPlayed);
    NatToStringRoundTrip(r.gamesWon);
    assert '&' !in played;
    assert Line(r) == r.username + ['&'] + (played + "&" + won);
    SplitFirstJoin(r.username, '&', played + "&" + won);
    assert played + "&" + won == played + ['&'] + won;
    SplitFirstJoin(played, '&', won);
  }

  /** A game result reported to the table. */
  datatype Result = Win(name: string) | Loss(name: string)

  function Apply(rs: seq<Record>, e: Result): seq<Record> {
    match e
    case Win(n) => WithWin(rs, n)
    case Loss(n) => WithLoss(rs, n)
  }

  /** The table after a series of results, in the order the lock admitted them. */
  function ApplyAll(rs: seq<Record>, es: seq<Result>): seq<Record>
    decreases |es|
  {
    if es == [] then rs else Apply(ApplyAll(rs, es[..|es| - 1]), es[|es| - 1])
  }

  function GamesOf(es: seq<Result>, name: string): nat
    decreases |es|
  {
    if es == [] then 0 else GamesOf(es[..|es| - 1], name) + (if es[|es| - 1].name == name then 1 else 0)
  }

  function WinsOf(es: seq<Result>, name: string): nat
    decreases |es|
  {
    if es == [] then 0
    else WinsOf(es[..|es| - 1], name) + (if es[|es| - 1] == Win(name) then 1 else 0)
  }

  /** No update is lost: however the results of many sessions are
      interleaved, each registered user's counters grow by exactly the
      number of games and wins reported for them, and the table stays
      consistent. */
  lemma {:induction false} NoLostUpdates(rs: seq<Record>, es: seq<Result>)
    requires Consistent(rs)
    ensures var r := ApplyAll(rs, es);
      && |r| == |rs| && Consistent(r)
      && (forall k :: 0 <= k < |rs| ==> r[k].username == rs[k].username)
      && (forall k :: 0 <= k < |rs| ==>
            r[k].gamesPlayed == rs[k].gamesPlayed + GamesOf(es, rs[k].username)
            && r[k].gamesWon == rs[k].gamesWon + WinsOf(es, rs[k].username))
    decreases |es|
  {
    if es != [] {
      var init := es[..|es| - 1];
      NoLostUpdates(rs, init);
    }
  }

  /** The leaderboard store: `leaderBoard[0..userCount)` as a sequence. */
  class Table {
    var records: seq<Record>

    ghost predicate Valid()
      reads this
    {
      Consistent(records)
    }

    /** The empty table the server starts with (`leaderBoard = NULL`, `userCount = 0`). */
    constructor ()
      ensures Valid() && records == []
    {
      records := [];
    }

    /** `addLeaderboardEntry`: -1 and no change for a known name, else a zeroed
        record at the end and 1. */
    method AddLeaderboardEntry(name: string) returns (status: int)
      requires Valid()
      modifies this
      ensures Valid()
      ensures status == (if Registered(old(records), name) then -1 else 1)
      ensures records == WithEntry(old(records), name)
    {
      for i := 0 to |records|
        invariant forall j :: 0 <= j < i ==> records[j].username != name
      {
        if records[i].username == name {
          return -1;
        }
      }
      records := records + [Record(name, 0, 0)];
      return 1;
    }

    /** `addWinFor`: 1 after counting a win for a known name, 0 for an unknown one. */
    method AddWinFor(name: string) returns (status: int)
      requires Valid()
      modifies this
      ensures Valid()
      ensures status == (if Registered(old(records), name) then 1 else 0)
      ensures records == WithWin(old(records), name)
    {
      for i := 0 to |records|
        invariant forall j :: 0 <= j < i ==> records[j].username != name
      {
        if records[i].username == name {
          records := records[i := Record(name, records[i].gamesWon + 1, records[i].gamesPlayed + 1)];
          return 1;
        }
      }
      return 0;
    }

    /** `addLossFor`: 1 after counting a lost game for a known name, 0 for an unknown one. */
    method AddLossFor(name: string) returns (status: int)
      requires Valid()
      modifies this
      ensures Valid()
      ensures status == (if Registered(old(records), name) then 1 else 0)
      ensures records == WithLoss(old(records), name)
    {
      for i := 0 to |records|
        invariant forall j :: 0 <= j < i ==> records[j].username != name
      {
        if records[i].username == name {
          records := records[i := records[i].(gamesPlayed := records[i].gamesPlayed + 1)];
          return 1;
        }
      }
      return 0;
    }

    /** `leaderboardLoop`: the lines it sends, in table order, ending with `lb-end`. */
    method LeaderboardLoop() returns (sent: seq<string>)
      ensures sent == Listing(records)
    {
      sent := [];
      for i := 0 to |records|
        invariant sent == Listing(records)[..i]
      {
        sent := sent + [Line(records[i])];
      }
      sent := sent + ["lb-end"];
    }
  }
}
