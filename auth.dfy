/** The basic-auth gate that guards the OData routes (index.js:15-37), with
    the two comma-separated allow-lists it reads from the environment
    (index.js:7-8). */
module BasicAuth {
  import opened Wrappers

  /** What the basic-auth parser extracted from the Authorization header. */
  datatype Credentials = Credentials(name: string, pass: string)

  /** The parts of a request the gate looks at: its HTTP method (`verb`) and
      what was parsed from its Authorization header, `None` when
      the header is absent or cannot be parsed. */
  datatype Request = Request(verb: string, credentials: Option<Credentials>)

  /** Either the request is handed on to the next handler, or it is answered
      with a status and one response header. */
  datatype Decision = Next | Reject(status: nat, header: string, value: string)

  const Unauthorized: Decision :=
    Reject(401, "WWW-Authenticate", "Basic realm=Authorization Required")

  /** The environment variables holding the allow-lists. */
  datatype Config = Config(usersVar: string, passwordsVar: string)

  /** `s.split(sep)` for a one-character separator: the pieces between
      separators, an empty piece at each end or between two adjacent
      separators, and `[""]` for the empty string. */
  function Split(s: string, sep: char): (parts: seq<string>)
    ensures |parts| >= 1
    decreases |s|
  {
    if s == [] then [""]
    else
      var rest := Split(s[1..], sep);
      if s[0] == sep then [""] + rest
      else [[s[0]] + rest[0]] + rest[1..]
  }

  /** `parts.join(sep)`. */
  function Join(parts: seq<string>, sep: char): string
    requires |parts| >= 1
  {
    if |parts| == 1 then parts[0] else parts[0] + [sep] + Join(parts[1..], sep)
  }

  /** No piece of a split contains the separator. */
  lemma {:induction false} SplitPiecesFree(s: string, sep: char)
    ensures forall i :: 0 <= i < |Split(s, sep)| ==> sep !in Split(s, sep)[i]
    decreases |s|
  {
    if s != [] {
      SplitPiecesFree(s[1..], sep);
    }
  }

  /** Joining the pieces again gives back the string that was split. */
  lemma {:induction false} SplitJoin(s: string, sep: char)
    ensures Join(Split(s, sep), sep) == s
    decreases |s|
  {
    if s != [] {
      var rest := Split(s[1..], sep);
      SplitJoin(s[1..], sep);
      if s[0] == sep {
        assert Split(s, sep)[1..] == rest;
      } else {
        var parts := Split(s, sep);
        if |rest| == 1 {
          assert parts == [[s[0]] + rest[0]];
        } else {
          assert parts[1..] == rest[1..];
          assert Join(rest, sep) == rest[0] + [sep] + Join(rest[1..], sep);
        }
      }
    }
  }

  /** Splitting a string that starts with a non-separator character. */
  lemma SplitCons(c: char, t: string, sep: char)
    requires c != sep
    ensures Split([c] + t, sep) == [[c] + Split(t, sep)[0]] + Split(t, sep)[1..]
  {
  }

  /** Joining pieces whose first one starts with `c`. */
  lemma JoinCons(c: char, parts: seq<string>, sep: char)
    requires |parts| >= 1
    ensures Join([[c] + parts[0]] + parts[1..], sep) == [c] + Join(parts, sep)
  {
  }

  /** Splitting a join of separator-free pieces gives back the pieces. */
  lemma {:induction false} JoinSplit(parts: seq<string>, sep: char)
    requires |parts| >= 1
    requires forall i :: 0 <= i < |parts| ==> sep !in parts[i]
    ensures Split(Join(parts, sep), sep) == parts
    decreases |parts|, |parts[0]|
  {
    if parts[0] == [] {
      if |parts| > 1 {
        JoinSplit(parts[1..], sep);
        assert Join(parts, sep) == [sep] + Join(parts[1..], sep);
        assert ([sep] + Join(parts[1..], sep))[1..] == Join(parts[1..], sep);
        assert [""] + parts[1..] == parts;
      }
    } else {
      var c := parts[0][0];
      var shorter := [parts[0][1..]] + parts[1..];
      assert parts[0] == [c] + shorter[0];
      assert parts == [[c] + shorter[0]] + shorter[1..];
      assert c != sep;
      forall i | 0 <= i < |shorter| ensures sep !in shorter[i] {
        if i == 0 {
          assert forall x :: x in parts[0][1..] ==> x in parts[0];
        } else {
          assert shorter[i] == parts[i];
        }
      }
      JoinSplit(shorter, sep);
      JoinCons(c, shorter, sep);
      SplitCons(c, Join(shorter, sep), sep);
    }
  }

  /** The list `Array.prototype.indexOf` searches: -1 when absent, otherwise
      the first position holding `x`. */
  function IndexOf(list: seq<string>, x: string): (i: int)
    ensures -1 <= i < |list|
    ensures i == -1 <==> x !in list
    ensures i >= 0 ==> list[i] == x && x !in list[..i]
  {
    if list == [] then -1
    else if list[0] == x then 0
    else
      var j := IndexOf(list[1..], x);
      if j < 0 then -1 else j + 1
  }

  /** The allow-lists as read from the environment. */
  function AuthorizedUsers(cfg: Config): seq<string> { Split(cfg.usersVar, ',') }
  function AuthorizedUserPasswords(cfg: Config): seq<string> { Split(cfg.passwordsVar, ',') }

  /** The gate. A pre-flight request passes untouched; otherwise both the
      name and the password must be present and non-empty, and each is
      looked up in its own list. */
  function Authenticate(req: Request, users: seq<string>, passwords: seq<string>): (d: Decision)
    ensures d == Next || d == Unauthorized
  {
    if req.verb == "OPTIONS" then Next
    else match req.credentials
      case None => Unauthorized
      case Some(user) =>
        if user.name == "" || user.pass == "" then Unauthorized
        else if IndexOf(users, user.name) >= 0 && IndexOf(passwords, user.pass) >= 0 then Next
        else Unauthorized
  }

  /** The gate with the allow-lists taken from the configuration. */
  function Gate(req: Request, cfg: Config): Decision {
    Authenticate(req, AuthorizedUsers(cfg), AuthorizedUserPasswords(cfg))
  }

  /** A pre-flight request is passed on whatever credentials it carries. */
  lemma OptionsPassesThrough(creds: Option<Credentials>, users: seq<string>, passwords: seq<string>)
    ensures Authenticate(Request("OPTIONS", creds), users, passwords) == Next
  {
  }

  /** Absent credentials, or an empty name or password, draw the 401
      challenge on every other method. */
  lemma MissingCredentialsChallenged(req: Request, users: seq<string>, passwords: seq<string>)
    requires req.verb != "OPTIONS"
    requires req.credentials.None? || req.credentials.value.name == "" || req.credentials.value.pass == ""
    ensures Authenticate(req, users, passwords) == Unauthorized
  {
  }

  /** Access is granted exactly when the name is in the user list and the
      password is in the password list, each looked up on its own;
      every refusal is the 401 challenge. */
  lemma GrantedIff(req: Request, users: seq<string>, passwords: seq<string>)
    requires req.verb != "OPTIONS"
    ensures Authenticate(req, users, passwords) == Next <==>
      (req.credentials.Some? && req.credentials.value.name != "" && req.credentials.value.pass != "" &&
       req.credentials.value.name in users && req.credentials.value.pass in passwords)
    ensures Authenticate(req, users, passwords) != Next ==> Authenticate(req, users, passwords) == Unauthorized
  {
  }

  /** The reading of the allow-lists as matched pairs: the name and the
      password stand at the same position of their lists. */
  ghost predicate PairListed(c: Credentials, users: seq<string>, passwords: seq<string>) {
    exists i :: 0 <= i < |users| && i < |passwords| && users[i] == c.name && passwords[i] == c.pass
  }

  /** Every matched pair is let through. */
  lemma PairListedGranted(verb: string, c: Credentials, users: seq<string>, passwords: seq<string>)
    requires c.name != "" && c.pass != ""
    requires PairListed(c, users, passwords)
    ensures Authenticate(Request(verb, Some(c)), users, passwords) == Next
  {
    var i :| 0 <= i < |users| && i < |passwords| && users[i] == c.name && passwords[i] == c.pass;
    assert c.name in users && c.pass in passwords;
  }

  /** The converse fails: one user's name with another user's password is
      let through although it is no configured pair. */
  lemma CrossPairGranted()
    ensures !PairListed(Credentials("alice", "bob-secret"), ["alice", "bob"], ["alice-secret", "bob-secret"])
    ensures Authenticate(Request("GET", Some(Credentials("alice", "bob-secret"))),
                         ["alice", "bob"], ["alice-secret", "bob-secret"]) == Next
  {
    var users: seq<string> := ["alice", "bob"];
    var passwords: seq<string> := ["alice-secret", "bob-secret"];
    assert users[0] == "alice" && passwords[1] == "bob-secret";
    assert "alice" != "bob" by { assert "alice"[0] != "bob"[0]; }
    assert "bob-secret" != "alice-secret" by { assert "bob-secret"[0] != "alice-secret"[0]; }
  }

  /** A name holding a comma is never in the configured user list, so no
      request other than a pre-flight one carrying it gets through. */
  lemma CommaNameNeverGranted(req: Request, cfg: Config)
    requires req.verb != "OPTIONS"
    requires req.credentials.Some? && ',' in req.credentials.value.name
    ensures Gate(req, cfg) == Unauthorized
  {
    SplitPiecesFree(cfg.usersVar, ',');
    var users := AuthorizedUsers(cfg);
    assert req.credentials.value.name !in users;
  }
}
