/** The login exchange of server.c: the client sends one message
    `username&password`; the server splits it with `strtok`, scans the
    credential list (whose first line is a header and is never matched)
    and answers `success` or `failed`. A successful login creates the
    user's leaderboard record if it is not there yet. */
module Auth {
  import opened Util
  import opened Leaderboard

  /** One `struct User` loaded from the credential file. A token of the
      login message is an `Option<string>`: None is the NULL pointer
      `strtok` returns when there is no token. */
  datatype User = User(username: string, password: string)

  /** `s` without its leading run of `c`. */
  function DropLeading(s: string, c: char): (r: string)
    ensures |r| <= |s| && r == s[|s| - |r|..]
    ensures forall i :: 0 <= i < |s| - |r| ==> s[i] == c
    ensures r != [] ==> r[0] != c
  {
    if s != [] && s[0] == c then DropLeading(s[1..], c) else s
  }

  /** The two tokens `recvAuthDataAndAuthenticate` reads from a login
      message. `strtok(buf, "&")` skips leading `&`s and takes the text up
      to the next `&`, or is NULL when nothing is left. `strtok(NULL, "")`
      then takes the whole rest after that `&`, or is NULL when the rest
      is empty or there was no `&`. */
  function Tokens(msg: string): (t: (Option<string>, Option<string>))
    ensures t.0.Some? ==> t.0.value != [] && '&' !in t.0.value
    ensures t.1.Some? ==> t.0.Some? && t.1.value != []
    ensures t.0.None? <==> forall i :: 0 <= i < |msg| ==> msg[i] == '&'
  {
    var s := DropLeading(msg, '&');
    if s == [] then (None, None)
    else match SplitFirst(s, '&')
      case None => (Some(s), None)
      case Some((name, rest)) => (Some(name), if rest == [] then None else Some(rest))
  }

  /** The message a client builds from a username without `&` and a
      non-empty password splits back into exactly that pair; the password
      may itself contain `&`. */
  lemma TokensJoin(username: string, password: string)
    requires username != [] && '&' !in username && password != []
    ensures Tokens(username + "&" + password) == (Some(username), Some(password))
  {
    var msg := username + "&" + password;
    assert msg == username + ['&'] + password;
    assert DropLeading(msg, '&') == msg;
    SplitFirstJoin(username, '&', password);
  }

  /** A message that is only a non-empty username, with or without a
      trailing `&`, gives that username and a NULL password token. */
  lemma NoPasswordToken(name: string)
    requires name != [] && '&' !in name
    ensures Tokens(name) == (Some(name), None)
    ensures Tokens(name + "&") == (Some(name), None)
  {
    var msg := name + "&";
    assert msg == name + ['&'] + [];
    assert DropLeading(msg, '&') == msg;
    SplitFirstJoin(name, '&', []);
    assert DropLeading(name, '&') == name;
  }

  /** `strcmp(users[i].username, uname) == 0` for a username token that is
      not NULL. */
  predicate NameIs(u: User, uname: Option<string>) {
    uname == Some(u.username)
  }

  /** `strcmp(users[i].password, pwd) == 0` for a password token that is
      not NULL. */
  predicate PasswordIs(u: User, pwd: Option<string>) {
    pwd == Some(u.password)
  }

  /** The scan of `authenticateUser` would hand a NULL token to `strcmp`:
      a NULL username as soon as there is an entry after the header, a NULL
      password as soon as an entry after the header has the username. The
      source's behaviour is undefined exactly then. */
  predicate ReadsNull(users: seq<User>, uname: Option<string>, pwd: Option<string>) {
    || (uname.None? && |users| > 1)
    || (pwd.None? && exists i :: 1 <= i < |users| && NameIs(users[i], uname))
  }

  /** The credential list accepts the tokens: some entry after the header
      line has this username and this password. */
  predicate Authenticates(users: seq<User>, uname: Option<string>, pwd: Option<string>) {
    exists i :: 1 <= i < |users| && NameIs(users[i], uname) && PasswordIs(users[i], pwd)
  }

  /** The number of entries from index `from` on (and after the header)
      carrying the username, whatever their password. */
  function NameMatches(users: seq<User>, uname: Option<string>, from: nat): nat
    decreases |users| - from
  {
    if from >= |users| then 0
    else NameMatches(users, uname, from + 1) + (if from >= 1 && NameIs(users[from], uname) then 1 else 0)
  }

  /** The replies `authenticateUser` sends scanning from entry `i`: `failed`
      for every entry with the username but another password, `success` at
      the first entry with both, and a final `failed` if the scan ends. */
  function Replies(users: seq<User>, uname: Option<string>, pwd: Option<string>, i: nat): seq<string>
    decreases |users| - i
  {
    if i >= |users| then ["failed"]
    else if NameIs(users[i], uname) then
      if PasswordIs(users[i], pwd) then ["success"]
      else ["failed"] + Replies(users, uname, pwd, i + 1)
    else Replies(users, uname, pwd, i + 1)
  }

  /** The scan ends in `success` exactly when the pair is in the list from
      entry `i` on; every reply before the last is `failed`. */
  lemma {:induction false} RepliesVerdict(users: seq<User>, uname: Option<string>, pwd: Option<string>, i: nat)
    ensures var out := Replies(users, uname, pwd, i);
      && out != []
      && (out[|out| - 1] == "success" <==>
            exists j :: i <= j < |users| && NameIs(users[j], uname) && PasswordIs(users[j], pwd))
      && forall k :: 0 <= k < |out| - 1 ==> out[k] == "failed"
    decreases |users| - i
  {
    if i < |users| && !(NameIs(users[i], uname) && PasswordIs(users[i], pwd)) {
      RepliesVerdict(users, uname, pwd, i + 1);
      var out := Replies(users, uname, pwd, i);
      var tail := Replies(users, uname, pwd, i + 1);
      assert out[|out| - 1] == tail[|tail| - 1];
      if out[|out| - 1] == "success" {
        var j :| i + 1 <= j < |users| && NameIs(users[j], uname) && PasswordIs(users[j], pwd);
        assert i <= j;
      }
    }
  }

  /** A rejected login is answered with one `failed` per entry carrying the
      username plus one: an unknown username gets a single `failed` while a
      known one with a wrong password gets at least two, so the replies do
      tell the two cases apart. */
  lemma {:induction false} RejectionReplies(users: seq<User>, uname: Option<string>, pwd: Option<string>, i: nat)
    requires i >= 1
    requires forall j :: i <= j < |users| ==> !(NameIs(users[j], uname) && PasswordIs(users[j], pwd))
    ensures Replies(users, uname, pwd, i) == seq(NameMatches(users, uname, i) + 1, _ => "failed")
    decreases |users| - i
  {
    if i < |users| {
      RejectionReplies(users, uname, pwd, i + 1);
    }
  }

  /** `authenticateUser`: scans entries 1.. of the credential list. On the
      first entry with the username and password it creates the user's
      leaderboard record, replies `success`, hands back the username and
      returns 1; each entry with the username and another password draws a
      `failed`; when the scan ends it replies `failed`, hands back
      `_failed_` and returns -1. A token may be NULL as long as the scan
      never compares with it. */
  method AuthenticateUser(lb: Table, users: seq<User>, uname: Option<string>, pwd: Option<string>)
    returns (status: int, sent: seq<string>, name: string)
    requires lb.Valid() && !ReadsNull(users, uname, pwd)
    modifies lb
    ensures lb.Valid()
    ensures status == 1 || status == -1
    ensures status == 1 <==> Authenticates(users, uname, pwd)
    ensures sent == Replies(users, uname, pwd, 1)
    ensures status == 1 ==> uname.Some? && name == uname.value && lb.records == WithEntry(old(lb.records), uname.value)
    ensures status == -1 ==> name == "_failed_" && lb.records == old(lb.records)
  {
    sent := [];
    name := "";
    var i := 1;
    while i < |users|
      invariant 1 <= i <= |users| || (|users| <= 1 && i == 1)
      invariant sent + Replies(users, uname, pwd, i) == Replies(users, uname, pwd, 1)
      invariant forall j :: 1 <= j < i ==> !(NameIs(users[j], uname) && PasswordIs(users[j], pwd))
      invariant lb.records == old(lb.records)
      decreases |users| - i
    {
      if users[i].username == uname.value {
        if users[i].password == pwd.value {
          var _ := lb.AddLeaderboardEntry(users[i].username);
          sent := sent + ["success"];
          name := users[i].username;
          return 1, sent, name;
        } else {
          sent := sent + ["failed"];
          name := "_failed_";
        }
      }
      i := i + 1;
    }
    sent := sent + ["failed"];
    name := "_failed_";
    return -1, sent, name;
  }

  /** What a login exchange did: its status, the replies sent, the name
      handed to the session (None when it was never written) and the
      messages left unread. */
  datatype Login = Login(status: int, sent: seq<string>, name: Option<string>, rest: seq<string>)

  /** `recvAuthDataAndAuthenticate`: a failed receive ends the exchange
      with -1 and nothing sent; otherwise the message is split into its
      two tokens and the credential list is scanned with them. Where the
      scan would compare with a NULL token the exchange ends with -1 and
      nothing sent. */
  method RecvAuthDataAndAuthenticate(lb: Table, users: seq<User>, inputs: seq<string>) returns (login: Login)
    requires lb.Valid()
    modifies lb
    ensures lb.Valid()
    ensures login.status == 1 || login.status == -1
    ensures inputs == [] ==> login == Login(-1, [], None, []) && lb.records == old(lb.records)
    ensures inputs != [] ==> login.rest == inputs[1..]
    ensures inputs != [] && ReadsNull(users, Tokens(inputs[0]).0, Tokens(inputs[0]).1) ==>
      login == Login(-1, [], None, inputs[1..]) && lb.records == old(lb.records)
    ensures inputs != [] && !ReadsNull(users, Tokens(inputs[0]).0, Tokens(inputs[0]).1) ==>
      var (uname, pwd) := Tokens(inputs[0]);
      && (login.status == 1 <==> Authenticates(users, uname, pwd))
      && login.sent == Replies(users, uname, pwd, 1)
      && (login.status == 1 ==>
            uname.Some? && login.name == uname && lb.records == WithEntry(old(lb.records), uname.value))
      && (login.status == -1 ==> login.name == Some("_failed_") && lb.records == old(lb.records))
  {
    if inputs == [] {
      return Login(-1, [], None, []);
    }
    var (uname, pwd) := Tokens(inputs[0]);
    if ReadsNull(users, uname, pwd) {
      return Login(-1, [], None, inputs[1..]);
    }
    var status, sent, name := AuthenticateUser(lb, users, uname, pwd);
    login := Login(status, sent, Some(name), inputs[1..]);
  }

  /** A username token with a NULL password (the tokens of `name` and of
      `name&`, by `NoPasswordToken`) that no entry after the header carries
      never reaches a NULL comparison: it is answered with a single
      `failed` and the session gets `_failed_`. */
  lemma UnknownNameWithoutPassword(users: seq<User>, name: string)
    requires forall j :: 1 <= j < |users| ==> users[j].username != name
    ensures !ReadsNull(users, Some(name), None)
    ensures Replies(users, Some(name), None, 1) == ["failed"]
  {
    assert forall j :: 1 <= j < |users| ==> !NameIs(users[j], Some(name));
    RejectionReplies(users, Some(name), None, 1);
    NoNameMatches(users, Some(name), 1);
    assert seq(1, _ => "failed") == ["failed"];
  }

  /** A message with no username token against a list holding only its
      header is answered with a single `failed`. */
  lemma NoTokensHeaderOnly(users: seq<User>, msg: string)
    requires |users| <= 1
    requires forall i :: 0 <= i < |msg| ==> msg[i] == '&'
    ensures Tokens(msg).0 == None
    ensures !ReadsNull(users, Tokens(msg).0, Tokens(msg).1)
    ensures Replies(users, Tokens(msg).0, Tokens(msg).1, 1) == ["failed"]
  {
  }

  /** With no entry from `from` on carrying the username, none is counted. */
  lemma {:induction false} NoNameMatches(users: seq<User>, uname: Option<string>, from: nat)
    requires forall j :: 1 <= j < |users| && from <= j ==> !NameIs(users[j], uname)
    ensures NameMatches(users, uname, from) == 0
    decreases |users| - from
  {
    if from < |users| {
      NoNameMatches(users, uname, from + 1);
    }
  }

  /** A client that logs in with a listed pair is answered `success` with
      no `failed` before it when its username is listed only once, and its
      record exists afterwards. */
  lemma ListedLogin(rs: seq<Record>, users: seq<User>, username: string, password: string)
    requires username != [] && '&' !in username && password != []
    requires exists i :: (1 <= i < |users| && users[i] == User(username, password)
      && forall j :: 1 <= j < |users| && j != i ==> users[j].username != username)
    ensures Tokens(username + "&" + password) == (Some(username), Some(password))
    ensures Replies(users, Some(username), Some(password), 1) == ["success"]
    ensures Registered(WithEntry(rs, username), username)
  {
    TokensJoin(username, password);
    var i :| 1 <= i < |users| && users[i] == User(username, password)
      && forall j :: 1 <= j < |users| && j != i ==> users[j].username != username;
    SkipOthers(users, Some(username), Some(password), 1, i);
  }

  /** Entries before `i` without the username add no reply. */
  lemma {:induction false} SkipOthers(users: seq<User>, uname: Option<string>, pwd: Option<string>, from: nat, i: nat)
    requires from <= i < |users|
    requires forall j :: from <= j < i ==> !NameIs(users[j], uname)
    ensures Replies(users, uname, pwd, from) == Replies(users, uname, pwd, i)
    decreases i - from
  {
    if from < i {
      SkipOthers(users, uname, pwd, from + 1, i);
    }
  }
}
