/** The `auth` middleware: the `Authorization` header must be present, its
    second space-separated piece is the token, and the token must verify.
    `jwt.verify` with the server's secret is the parameter `verify`, which
    answers the decoded payload or `None` where the library throws. */
module AuthMiddleware {
  import opened Common
  import opened Store

  /** JavaScript's `s.split(sep)` for a one-character separator: the pieces
      between separators, empty ones included. */
  function Split(s: string, sep: char): (r: seq<string>)
    ensures |r| >= 1
    ensures forall i :: 0 <= i < |r| ==> sep !in r[i]
  {
    if s == [] then [""]
    else
      var rest := Split(s[1..], sep);
      if s[0] == sep then [""] + rest else [[s[0]] + rest[0]] + rest[1..]
  }

  /** `pieces.join(sep)` */
  function Join(pieces: seq<string>, sep: char): string
  {
    if pieces == [] then ""
    else if |pieces| == 1 then pieces[0]
    else pieces[0] + [sep] + Join(pieces[1..], sep)
  }

  /** Joining the pieces gives back the text. */
  lemma {:induction false} JoinSplit(s: string, sep: char)
    ensures Join(Split(s, sep), sep) == s
  {
    if s != [] {
      JoinSplit(s[1..], sep);
      var rest := Split(s[1..], sep);
      if s[0] != sep {
        var r := Split(s, sep);
        assert r[0] == [s[0]] + rest[0] && r[1..] == rest[1..];
        if |rest| == 1 {
          assert s == [s[0]] + s[1..];
        } else {
          assert Join(rest, sep) == rest[0] + [sep] + Join(rest[1..], sep);
          assert s == [s[0]] + s[1..];
        }
      } else {
        assert s == [sep] + s[1..];
      }
    }
  }

  /** Splitting pieces joined with a separator they do not contain gives back
      the pieces. */
  lemma {:induction false} SplitJoin(pieces: seq<string>, sep: char)
    requires |pieces| >= 1 && forall i :: 0 <= i < |pieces| ==> sep !in pieces[i]
    ensures Split(Join(pieces, sep), sep) == pieces
  {
    if |pieces| == 1 {
      SplitNoSep(pieces[0], sep);
    } else {
      SplitJoin(pieces[1..], sep);
      SplitAfterPiece(pieces[0], Join(pieces[1..], sep), sep);
      assert pieces == [pieces[0]] + pieces[1..];
    }
  }

  lemma {:induction false} SplitNoSep(s: string, sep: char)
    requires sep !in s
    ensures Split(s, sep) == [s]
  {
    if s != [] {
      SplitNoSep(s[1..], sep);
      assert s == [s[0]] + s[1..];
    }
  }

  lemma {:induction false} SplitAfterPiece(w: string, rest: string, sep: char)
    requires sep !in w
    ensures Split(w + [sep] + rest, sep) == [w] + Split(rest, sep)
  {
    if w == [] {
      assert w + [sep] + rest == [sep] + rest;
      assert ([sep] + rest)[1..] == rest;
    } else {
      assert (w + [sep] + rest)[1..] == w[1..] + [sep] + rest;
      SplitAfterPiece(w[1..], rest, sep);
      assert w == [w[0]] + w[1..];
    }
  }

  /** `authHeader.split(' ')[1]`: `undefined` when there is no second piece. */
  function TokenOf(header: string): Option<string>
  {
    var pieces := Split(header, ' ');
    if |pieces| >= 2 then Some(pieces[1]) else None
  }

  const NoToken := "No token provided"
  const BadFormat := "Invalid token format"
  const BadToken := "Token invalid or expired"

  /** `auth(req, res, next)`: `Ok(user)` is the call of `next()` with
      `req.user` set to `user`; an `Error` is the 401 answer, and `next` is
      not called. A missing or empty header, and a missing or empty token,
      are falsy. */
  function Authenticate(header: Option<string>, verify: string -> Option<Claims>): (r: Reply<Claims>)
    ensures r.Error? ==> r.status == 401
    ensures header.None? || header == Some("") ==> r == Error(401, NoToken)
    ensures header.Some? && header.value != "" ==>
      (TokenOf(header.value).None? || TokenOf(header.value).value == "" ==> r == Error(401, BadFormat))
    ensures header.Some? && TokenOf(header.value).Some? && TokenOf(header.value).value != "" ==>
      (verify(TokenOf(header.value).value).None? ==> r == Error(401, BadToken))
    ensures r.Ok? <==> header.Some? && TokenOf(header.value).Some? && TokenOf(header.value).value != ""
                       && verify(TokenOf(header.value).value).Some?
    ensures r.Ok? ==> verify(TokenOf(header.value).value) == Some(r.body)
  {
    if header.None? || header.value == "" then Error(401, NoToken)
    else
      var token := TokenOf(header.value);
      if token.None? || token.value == "" then Error(401, BadFormat)
      else
        match verify(token.value)
        case None => Error(401, BadToken)
        case Some(user) => Ok(user)
  }

  /** A header without a blank has no second piece. */
  lemma SchemeOnly(word: string, verify: string -> Option<Claims>)
    requires word != [] && ' ' !in word
    ensures Authenticate(Some(word), verify) == Error(401, BadFormat)
  {
    SplitNoSep(word, ' ');
  }

  /** The token is the second blank-free piece, whatever the first piece
      says and whatever follows; the scheme word is never checked. */
  lemma TokenIsSecondPiece(pieces: seq<string>, verify: string -> Option<Claims>)
    requires |pieces| >= 2 && forall i :: 0 <= i < |pieces| ==> ' ' !in pieces[i]
    ensures TokenOf(Join(pieces, ' ')) == Some(pieces[1])
    ensures pieces[1] != "" ==>
      Authenticate(Some(Join(pieces, ' ')), verify) ==
        if verify(pieces[1]).Some? then Ok(verify(pieces[1]).value) else Error(401, BadToken)
  {
    var header := Join(pieces, ' ');
    SplitJoin(pieces, ' ');
    JoinNonEmpty(pieces, ' ');
    if pieces[1] != "" {
      AuthenticateToken(header, pieces[1], verify);
    }
  }

  /** A non-empty header whose token is not empty is decided by `verify`
      alone. */
  lemma AuthenticateToken(header: string, token: string, verify: string -> Option<Claims>)
    requires header != "" && TokenOf(header) == Some(token) && token != ""
    ensures Authenticate(Some(header), verify) ==
      if verify(token).Some? then Ok(verify(token).value) else Error(401, BadToken)
  {
  }

  lemma JoinNonEmpty(pieces: seq<string>, sep: char)
    requires |pieces| >= 2
    ensures Join(pieces, sep) != ""
  {
    assert |Join(pieces, sep)| >= 1;
  }

  /** Two blanks between the scheme and the token leave an empty second
      piece. */
  lemma DoubleBlank(scheme: string, token: string, verify: string -> Option<Claims>)
    requires ' ' !in scheme && ' ' !in token
    ensures Authenticate(Some(scheme + "  " + token), verify) == Error(401, BadFormat)
  {
    var pieces := [scheme, "", token];
    assert Join(pieces, ' ') == scheme + "  " + token by {
      assert Join(pieces[2..], ' ') == token;
      assert Join(pieces[1..], ' ') == "" + [' '] + token;
    }
    TokenIsSecondPiece(pieces, verify);
  }
}
