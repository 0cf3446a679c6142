/**
 * The authentication gate: a `Bearer ` header, its token, the verifier and
 * the user lookup, and the admin-role gate. Token verification and the user
 * lookup are parameters.
 */
module Auth {
  import opened Common

  /** The stored user as the lookup returns it. */
  datatype User = User(id: string, role: string)

  /** What the gate attaches to the request: exactly the user's id and role. */
  datatype ReqUser = ReqUser(id: string, role: string)

  /** The lookup by id: a user, no such user, or a failure (a malformed id, say). */
  datatype Lookup = Found(user: User) | NoSuchUser | LookupFailed

  /** Either the request goes on with a user, or it is answered 401 with a message. */
  datatype AuthOutcome = Authenticated(user: ReqUser) | Unauthorized(message: string)

  /** Either the request goes on, or it is answered with a status and a message. */
  datatype Gate = Next | Deny(status: int, message: string)

  const BearerPrefix := "Bearer "
  const AdminRole := "admin"
  const MissingHeader := "Missing or invalid Authorization header"
  const InvalidToken := "Invalid token"
  const UserNotFound := "User not found"
  const AdminRequired := "Admin privileges required"

  predicate StartsWith(s: string, p: string) {
    |p| <= |s| && s[..|p|] == p
  }

  /**
   * `s.split(sep)` for a one-character separator: the pieces between the
   * separators, at least one and none containing the separator.
   */
  function Split(s: string, sep: char): (r: seq<string>)
    ensures |r| >= 1
    ensures forall i :: 0 <= i < |r| ==> sep !in r[i]
  {
    if s == [] then [""]
    else
      var rest := Split(s[1..], sep);
      if s[0] == sep then [""] + rest
      else [[s[0]] + rest[0]] + rest[1..]
  }

  /** The pieces put back together with the separator between them. */
  function Join(r: seq<string>, sep: char): string
    requires |r| >= 1
  {
    if |r| == 1 then r[0] else r[0] + [sep] + Join(r[1..], sep)
  }

  /** Splitting loses nothing: joining the pieces gives back the string. */
  lemma {:induction false} JoinSplit(s: string, sep: char)
    ensures Join(Split(s, sep), sep) == s
  {
    if s != [] {
      var rest := Split(s[1..], sep);
      JoinSplit(s[1..], sep);
      if s[0] == sep {
        assert ([""] + rest)[1..] == rest;
        assert s == [s[0]] + s[1..];
      } else {
        var r := [[s[0]] + rest[0]] + rest[1..];
        if |rest| > 1 {
          assert r[1..] == rest[1..];
          assert Join(rest, sep) == rest[0] + [sep] + Join(rest[1..], sep);
        }
        assert s == [s[0]] + s[1..];
      }
    }
  }

  /** A word without the separator, then the separator: the word is the first piece. */
  lemma {:induction false} SplitAfterWord(w: string, t: string, sep: char)
    requires sep !in w
    ensures Split(w + [sep] + t, sep) == [w] + Split(t, sep)
  {
    if w == [] {
      assert [] + [sep] + t == [sep] + t;
      assert ([sep] + t)[1..] == t;
    } else {
      assert (w + [sep] + t)[1..] == w[1..] + [sep] + t;
      SplitAfterWord(w[1..], t, sep);
      assert [w[0]] + w[1..] == w;
    }
  }

  /** The first piece is the longest prefix free of the separator. */
  lemma {:induction false} FirstPiece(t: string, sep: char)
    ensures var p := Split(t, sep)[0];
            && |p| <= |t| && p == t[..|p|]
            && (|p| == |t| || t[|p|] == sep)
  {
    if t != [] {
      FirstPiece(t[1..], sep);
    }
  }

  /** `auth.split(" ")[1]` on a header that begins with the prefix. */
  function Token(header: string): (token: string)
    requires StartsWith(header, BearerPrefix)
  {
    SplitAfterWord("Bearer", header[|BearerPrefix|..], ' ');
    assert header == "Bearer" + [' '] + header[|BearerPrefix|..];
    Split(header, ' ')[1]
  }

  /**
   * The token is what follows the prefix up to the next space: a prefix of
   * the rest of the header, without spaces, ending at a space or at the end.
   */
  lemma TokenIsWordAfterPrefix(header: string)
    requires StartsWith(header, BearerPrefix)
    ensures var rest := header[|BearerPrefix|..];
            var token := Token(header);
            && |token| <= |rest| && token == rest[..|token|]
            && ' ' !in token
            && (|token| == |rest| || rest[|token|] == ' ')
  {
    var rest := header[|BearerPrefix|..];
    SplitAfterWord("Bearer", rest, ' ');
    assert header == "Bearer" + [' '] + rest;
    FirstPiece(rest, ' ');
  }

  /** `authMiddleware`: `verify` gives the token's user id, or nothing for a token it refuses. */
  function Authenticate(header: Option<string>, verify: string -> Option<string>, lookup: string -> Lookup): (r: AuthOutcome)
    ensures r.Unauthorized? ==> r.message in {MissingHeader, InvalidToken, UserNotFound}
  {
    if header.None? || !StartsWith(header.value, BearerPrefix) then Unauthorized(MissingHeader)
    else
      match verify(Token(header.value))
      case None => Unauthorized(InvalidToken)
      case Some(id) =>
        match lookup(id)
        case Found(u) => Authenticated(ReqUser(u.id, u.role))
        case NoSuchUser => Unauthorized(UserNotFound)
        case LookupFailed => Unauthorized(InvalidToken)
  }

  /**
   * The request goes on exactly when the header carries the prefix, the token
   * verifies and the user is found, and then it carries exactly that user's
   * id and role. A missing or malformed header is refused before the token is
   * looked at; a token that fails to verify and a lookup that throws both end
   * in the catch block with "Invalid token".
   */
  lemma AuthenticateOutcome(header: Option<string>, verify: string -> Option<string>, lookup: string -> Lookup)
    ensures var r := Authenticate(header, verify, lookup);
            && (r == Unauthorized(MissingHeader) <==> header.None? || !StartsWith(header.value, BearerPrefix))
            && (r == Unauthorized(InvalidToken) <==>
                  header.Some? && StartsWith(header.value, BearerPrefix)
                  && (verify(Token(header.value)).None?
                      || lookup(verify(Token(header.value)).value) == LookupFailed))
            && (r.Authenticated? <==>
                  header.Some? && StartsWith(header.value, BearerPrefix)
                  && verify(Token(header.value)).Some?
                  && lookup(verify(Token(header.value)).value).Found?)
            && (r.Authenticated? ==>
                  var u := lookup(verify(Token(header.value)).value).user;
                  r.user == ReqUser(u.id, u.role))
            && (r == Unauthorized(UserNotFound) <==>
                  header.Some? && StartsWith(header.value, BearerPrefix)
                  && verify(Token(header.value)).Some?
                  && lookup(verify(Token(header.value)).value) == NoSuchUser)
  {
  }

  /** `adminOnly`. */
  function AdminOnly(user: Option<ReqUser>): (g: Gate)
    ensures g.Next? <==> user.Some? && user.value.role == AdminRole
    ensures g.Deny? ==> g == Deny(403, AdminRequired)
  {
    if user.None? || user.value.role != AdminRole then Deny(403, AdminRequired) else Next
  }

  /** The user the gate attached, if any. */
  function UserOf(r: AuthOutcome): Option<ReqUser> {
    if r.Authenticated? then Some(r.user) else None
  }

  /**
   * The two gates in a row admit exactly the requests whose verified token
   * names a found user with the admin role.
   */
  lemma AdminChain(header: Option<string>, verify: string -> Option<string>, lookup: string -> Lookup)
    ensures var r := Authenticate(header, verify, lookup);
            (r.Authenticated? && AdminOnly(UserOf(r)).Next?) <==>
              (header.Some? && StartsWith(header.value, BearerPrefix)
               && verify(Token(header.value)).Some?
               && lookup(verify(Token(header.value)).value).Found?
               && lookup(verify(Token(header.value)).value).user.role == AdminRole)
  {
  }
}
